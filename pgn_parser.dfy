/**
 * PGN move and evaluation extraction (packages/chess-engine/src/pgn-parser.ts).
 * Loading the PGN (headers and verbose move history) and applying a move to
 * a position belong to the chess rules library; they are inputs here: the
 * headers, the history, and `play`, which applies a SAN move to a FEN and
 * fails (`None`) where the library throws. `centipawns` stands for
 * `parseFloat(text) * 100`.
 */
module PgnParser {
  import opened Optional
  import opened JsStrings
  import opened ChessTypes

  /** The position `new Chess()` starts from. */
  const StartingFen := "rnbqkbnr/pppppppp/8/8/8/8/PPPPPPPP/RNBQKBNR w KQkq - 0 1"

  /** One entry of the loaded game's verbose history. */
  datatype HistoryMove = HistoryMove(color: Color, san: string)

  datatype ParsedMove = ParsedMove(moveNumber: int, color: Color, san: string, fen: string, eval: Option<int>)

  datatype ParsedGame = ParsedGame(headers: map<string, string>, moves: seq<ParsedMove>)

  type Play = (string, string) -> Option<string>

  // ---- move numbers ----

  /** `Math.ceil(n / 2) + (n % 2 === 0 ? 1 : 0)`, the source's move-number formula for ply `n`. */
  function MoveNumberFormula(n: nat): int {
    (n + 1) / 2 + (if n % 2 == 0 then 1 else 0)
  }

  /** The formula gives plies 0 and 1 move 1, plies 2 and 3 move 2, and so on. */
  lemma MoveNumberOfPly(n: nat)
    ensures MoveNumberFormula(n) == n / 2 + 1
    ensures n % 2 == 0 ==> MoveNumberFormula(n + 1) == MoveNumberFormula(n)
    ensures n % 2 == 1 ==> MoveNumberFormula(n + 1) == MoveNumberFormula(n) + 1
  {
  }

  // ---- replaying the history ----

  /** Each of `fens` is the position after playing that ply on the position before it. */
  predicate PlaysThrough(play: Play, start: string, history: seq<HistoryMove>, fens: seq<string>) {
    && |fens| == |history|
    && forall i {:trigger history[i]} :: 0 <= i < |history| ==> play(if i == 0 then start else fens[i - 1], history[i].san) == Some(fens[i])
  }

  /** The positions after each ply, replayed from `start`; `None` when some ply cannot be played. */
  function Replay(play: Play, start: string, history: seq<HistoryMove>): (r: Option<seq<string>>)
    ensures r.Some? ==> PlaysThrough(play, start, history, r.value)
  {
    if |history| == 0 then Some([])
    else
      var n := |history| - 1;
      var prefix := Replay(play, start, history[..n]);
      if prefix.None? then None
      else
        var fens := prefix.value;
        var prev := if n == 0 then start else fens[n - 1];
        match play(prev, history[n].san)
        case None => None
        case Some(fen) =>
          var r := fens + [fen];
          assert PlaysThrough(play, start, history[..n], fens);
          assert forall i :: 0 <= i < n ==> history[..n][i] == history[i];
          Some(r)
  }

  /** A history whose prefix cannot be replayed cannot be replayed either. */
  lemma {:induction false} ReplayPrefixFails(play: Play, start: string, history: seq<HistoryMove>, k: nat)
    requires k <= |history|
    requires Replay(play, start, history[..k]).None?
    ensures Replay(play, start, history).None?
    decreases |history| - k
  {
    if k < |history| {
      var h := history[..k + 1];
      assert h[..|h| - 1] == history[..k];
      ReplayPrefixFails(play, start, history, k + 1);
    } else {
      assert history[..k] == history;
    }
  }

  // ---- the `[%eval …]` annotations ----

  const EvalTag := "[%eval "

  /** A match of `/\[%eval ([+-]?\d+\.?\d*)\]/`: the captured number and where the match ends. */
  datatype EvalMatch = EvalMatch(capture: string, end: nat)

  /** The text the capture group accepts: `[+-]?\d+\.?\d*`. */
  predicate IsEvalNumber(s: string) {
    var k := if |s| > 0 && (s[0] == '+' || s[0] == '-') then 1 else 0;
    && k < |s| && IsDigit(s[k])
    && (forall i :: k <= i < |s| ==> IsDigit(s[i]) || s[i] == '.')
    && (forall i, i2 :: k <= i < i2 < |s| && s[i] == '.' ==> s[i2] != '.')
  }

  /** The end of `[+-]?\d+\.?\d*` matched greedily at `j`, if it matches. */
  function NumberEnd(text: string, j: nat): (e: Option<nat>)
    requires j <= |text|
    ensures e.Some? ==> j < e.value <= |text| && IsEvalNumber(text[j..e.value])
  {
    var k := if j < |text| && (text[j] == '+' || text[j] == '-') then j + 1 else j;
    var d := DigitRunEnd(text, k);
    if d == k then None
    else
      var e := if d < |text| && text[d] == '.' then DigitRunEnd(text, d + 1) else d;
      assert AllDigits(text[k..d]) && (d < e ==> text[d] == '.' && AllDigits(text[d + 1..e]));
      assert forall i :: k <= i < e && i != d ==> IsDigit(text[i]) by {
        forall i | k <= i < e && i != d ensures IsDigit(text[i]) {
          if i < d { assert text[k..d][i - k] == text[i]; } else { assert text[d + 1..e][i - d - 1] == text[i]; }
        }
      }
      assert IsEvalNumber(text[j..e]) by {
        var s := text[j..e];
        assert s[0] == text[j];
        forall i | k - j <= i < |s| ensures IsDigit(s[i]) || s[i] == '.' {
          assert s[i] == text[i + j];
        }
        forall i, i2 | k - j <= i < i2 < |s| && s[i] == '.' ensures s[i2] != '.' {
          assert s[i] == text[i + j] && s[i2] == text[i2 + j];
        }
      }
      Some(e)
  }

  /** The regular expression matched at index `i`. */
  function EvalMatchAt(text: string, i: nat): (m: Option<EvalMatch>)
    ensures m.Some? ==> i < m.value.end <= |text| && IsEvalNumber(m.value.capture)
  {
    if OccursAt(text, EvalTag, i) then
      var j := i + |EvalTag|;
      match NumberEnd(text, j)
      case None => None
      case Some(e) => if e < |text| && text[e] == ']' then Some(EvalMatch(text[j..e], e + 1)) else None
    else None
  }

  /** A well-formed number followed by `]` is matched greedily up to the `]`. */
  lemma NumberEndOf(text: string, j: nat, s: string)
    requires IsEvalNumber(s)
    requires j + |s| < |text| && text[j..j + |s|] == s && text[j + |s|] == ']'
    ensures NumberEnd(text, j) == Some(j + |s|)
  {
    var k0 := if s[0] == '+' || s[0] == '-' then 1 else 0;
    if p :| k0 <= p < |s| && s[p] == '.' {
      forall t | k0 <= t < |s| && t != p ensures IsDigit(s[t]) {
        assert s[t] != '.';
      }
      NumberEndDotted(text, j, s, k0, p);
    } else {
      NumberEndWhole(text, j, s, k0);
    }
  }

  /** The greedy end of a number with a dot at `p`: the integer digits stop at the dot, the fraction at the `]`. */
  lemma NumberEndDotted(text: string, j: nat, s: string, k0: nat, p: nat)
    requires j + |s| < |text| && text[j..j + |s|] == s && text[j + |s|] == ']'
    requires k0 == (if |s| > 0 && (s[0] == '+' || s[0] == '-') then 1 else 0) && k0 < p < |s| && s[p] == '.'
    requires forall t :: k0 <= t < |s| && t != p ==> IsDigit(s[t])
    ensures NumberEnd(text, j) == Some(j + |s|)
  {
    assert text[j] == s[0] && text[j + p] == s[p];
    var k := j + k0;
    assert k == (if j < |text| && (text[j] == '+' || text[j] == '-') then j + 1 else j);
    NumberDigits(text, j, s, k0, p);
    DigitRunEndAt(text, k, j + p);
    NumberDigits(text, j, s, p + 1, |s|);
    DigitRunEndAt(text, j + p + 1, j + |s|);
    assert j + p < |text| && text[j + p] == '.';
    NumberEndSteps(text, j, k, j + p, j + |s|);
  }

  /** The greedy end of a number without a dot: the digits stop at the `]`. */
  lemma NumberEndWhole(text: string, j: nat, s: string, k0: nat)
    requires j + |s| < |text| && text[j..j + |s|] == s && text[j + |s|] == ']'
    requires k0 == (if |s| > 0 && (s[0] == '+' || s[0] == '-') then 1 else 0) && k0 < |s|
    requires forall t :: k0 <= t < |s| ==> IsDigit(s[t])
    ensures NumberEnd(text, j) == Some(j + |s|)
  {
    assert text[j] == s[0];
    NumberDigits(text, j, s, k0, |s|);
    DigitRunEndAt(text, j + k0, j + |s|);
    NumberEndSteps(text, j, j + k0, j + |s|, j + |s|);
  }

  /** How `NumberEnd` reaches its end: past the sign, a non-empty digit run, then the fraction if a dot follows. */
  lemma NumberEndSteps(text: string, j: nat, k: nat, d: nat, e: nat)
    requires k == (if j < |text| && (text[j] == '+' || text[j] == '-') then j + 1 else j)
    requires k < d <= |text| && DigitRunEnd(text, k) == d
    requires if d < |text| && text[d] == '.' then DigitRunEnd(text, d + 1) == e else e == d
    ensures NumberEnd(text, j) == Some(e)
  {
  }

  /** A stretch of digits of `s`, found in the text where `s` occurs. */
  lemma NumberDigits(text: string, j: nat, s: string, a: nat, b: nat)
    requires j + |s| <= |text| && text[j..j + |s|] == s && a <= b <= |s|
    requires forall t :: a <= t < b ==> IsDigit(s[t])
    ensures AllDigits(text[j + a..j + b])
  {
    var r := text[j + a..j + b];
    forall t | 0 <= t < |r| ensures IsDigit(r[t]) {
      assert r[t] == text[j..j + |s|][a + t];
    }
  }

  /** `[%eval n]` with a well-formed number n is a match at its `[`, capturing n and ending after the `]`. */
  lemma EvalMatchOf(text: string, i: nat, s: string)
    requires IsEvalNumber(s) && OccursAt(text, EvalTag + s + "]", i)
    ensures EvalMatchAt(text, i) == Some(EvalMatch(s, i + |EvalTag| + |s| + 1))
  {
    var w := EvalTag + s + "]";
    var j := i + |EvalTag|;
    assert text[i..i + |w|] == w;
    assert text[i..i + |EvalTag|] == w[..|EvalTag|] == EvalTag;
    forall t | 0 <= t < |s| ensures text[j + t] == s[t] {
      assert text[j + t] == text[i..i + |w|][|EvalTag| + t] == w[|EvalTag| + t];
    }
    assert text[j..j + |s|] == s;
    assert text[j + |s|] == w[|EvalTag| + |s|] == ']';
    NumberEndOf(text, j, s);
  }

  /** `exec` of the global regular expression from `lastIndex = from`: the leftmost match. */
  function NextEval(text: string, from: nat): (m: Option<EvalMatch>)
    decreases |text| - from
    ensures m.Some? ==> from < m.value.end <= |text|
    ensures m.Some? ==> IsEvalNumber(m.value.capture)
    ensures m.Some? ==>
      exists i: nat :: from <= i && EvalMatchAt(text, i) == m && (forall j: nat :: from <= j < i ==> EvalMatchAt(text, j).None?)
    ensures m.None? ==> forall j: nat :: from <= j ==> EvalMatchAt(text, j).None?
  {
    if from >= |text| then None
    else if EvalMatchAt(text, from).Some? then EvalMatchAt(text, from)
    else NextEval(text, from + 1)
  }

  /** The next `exec` from `from` finds `[%eval n]` at `i` when no match starts between `from` and `i`. */
  lemma NextEvalFinds(text: string, from: nat, i: nat, s: string)
    requires from <= i && IsEvalNumber(s) && OccursAt(text, EvalTag + s + "]", i)
    requires forall j: nat :: from <= j < i ==> EvalMatchAt(text, j).None?
    ensures NextEval(text, from) == Some(EvalMatch(s, i + |EvalTag| + |s| + 1))
  {
    EvalMatchOf(text, i, s);
  }

  /** All captured numbers from `from` on, in order of occurrence. */
  function EvalAnnotations(text: string, from: nat): seq<string>
    decreases |text| - from
  {
    match NextEval(text, from)
    case None => []
    case Some(m) => [m.capture] + EvalAnnotations(text, m.end)
  }

  /** One step of the scan: the next match, then the annotations after it. */
  lemma AnnotationsStep(text: string, from: nat)
    ensures NextEval(text, from).None? ==> EvalAnnotations(text, from) == []
    ensures NextEval(text, from).Some? ==>
      EvalAnnotations(text, from) == [NextEval(text, from).value.capture] + EvalAnnotations(text, NextEval(text, from).value.end)
  {
  }

  /** Every annotation picked up is a plain number `[+-]?\d+\.?\d*`. */
  lemma {:induction false} AnnotationsAreNumbers(text: string, from: nat)
    ensures forall k :: 0 <= k < |EvalAnnotations(text, from)| ==> IsEvalNumber(EvalAnnotations(text, from)[k])
    decreases |text| - from
  {
    match NextEval(text, from)
    case None =>
    case Some(m) =>
      AnnotationsAreNumbers(text, m.end);
  }

  /** A mate annotation such as `[%eval #3]` is not a match. */
  lemma MateAnnotationIgnored(text: string, i: nat)
    requires OccursAt(text, EvalTag, i) && i + |EvalTag| < |text| && text[i + |EvalTag|] == '#'
    ensures EvalMatchAt(text, i).None?
  {
  }

  /** One more ply of the replay: it extends the positions when it can be played, and fails otherwise. */
  lemma ReplayStep(play: Play, start: string, history: seq<HistoryMove>, i: nat, fens: seq<string>)
    requires i < |history| && Replay(play, start, history[..i]) == Some(fens)
    ensures var next := play(if i == 0 then start else fens[i - 1], history[i].san);
      && (next.None? ==> Replay(play, start, history[..i + 1]).None?)
      && (next.Some? ==> Replay(play, start, history[..i + 1]) == Some(fens + [next.value]))
  {
    var h := history[..i + 1];
    assert h[..|h| - 1] == history[..i];
    assert PlaysThrough(play, start, history[..i], fens);
  }

  /** The first loop of `parsePGN`: one parsed move per ply, with its move number, colour, SAN and resulting position. */
  method ReplayHistory(history: seq<HistoryMove>, play: Play) returns (r: Option<seq<ParsedMove>>)
    ensures r.None? <==> Replay(play, StartingFen, history).None?
    ensures r.Some? ==> |r.value| == |history|
    ensures r.Some? ==> forall i {:trigger history[i]} :: 0 <= i < |history| ==>
      && r.value[i] == ParsedMove(MoveNumberFormula(i), history[i].color, history[i].san, r.value[i].fen, None)
      && play(if i == 0 then StartingFen else r.value[i - 1].fen, history[i].san) == Some(r.value[i].fen)
  {
    var fen := StartingFen;
    var moves: seq<ParsedMove> := [];
    ghost var fens: seq<string> := [];
    for i := 0 to |history|
      invariant |moves| == i && |fens| == i
      invariant Replay(play, StartingFen, history[..i]) == Some(fens)
      invariant fen == if i == 0 then StartingFen else fens[i - 1]
      invariant ParsedPlies(history, moves, fens)
    {
      ReplayStep(play, StartingFen, history, i, fens);
      var next := play(fen, history[i].san);
      if next.None? {
        ReplayPrefixFails(play, StartingFen, history, i + 1);
        return None;
      }
      fen := next.value;
      AppendParsed(history, moves, fens, i, fen);
      moves := moves + [ParsedMove(MoveNumberFormula(i), history[i].color, history[i].san, fen, None)];
      fens := fens + [fen];
    }
    assert history[..|history|] == history;
    assert PlaysThrough(play, StartingFen, history, fens);
    ReplayedMoves(play, history, moves, fens);
    r := Some(moves);
  }

  /** Appending the parsed move of ply `i` keeps every earlier parsed move and records the new one. */
  lemma AppendParsed(history: seq<HistoryMove>, moves: seq<ParsedMove>, fens: seq<string>, i: nat, fen: string)
    requires i < |history| && |moves| == i && |fens| == i
    requires ParsedPlies(history, moves, fens)
    ensures ParsedPlies(history, moves + [ParsedMove(MoveNumberFormula(i), history[i].color, history[i].san, fen, None)], fens + [fen])
  {
  }

  /** Each parsed move records its ply's number, colour and SAN and the position after it. */
  predicate ParsedPlies(history: seq<HistoryMove>, moves: seq<ParsedMove>, fens: seq<string>) {
    && |moves| == |fens| <= |history|
    && forall k :: 0 <= k < |moves| ==>
      moves[k] == ParsedMove(MoveNumberFormula(k), history[k].color, history[k].san, fens[k], None)
  }

  /** The loop's invariants at the end give the method's promise. */
  lemma ReplayedMoves(play: Play, history: seq<HistoryMove>, moves: seq<ParsedMove>, fens: seq<string>)
    requires PlaysThrough(play, StartingFen, history, fens)
    requires |moves| == |history| && ParsedPlies(history, moves, fens)
    ensures forall i {:trigger history[i]} :: 0 <= i < |history| ==>
      && moves[i] == ParsedMove(MoveNumberFormula(i), history[i].color, history[i].san, moves[i].fen, None)
      && play(if i == 0 then StartingFen else moves[i - 1].fen, history[i].san) == Some(moves[i].fen)
  {
    forall i | 0 <= i < |history|
      ensures moves[i] == ParsedMove(MoveNumberFormula(i), history[i].color, history[i].san, moves[i].fen, None)
      ensures play(if i == 0 then StartingFen else moves[i - 1].fen, history[i].san) == Some(moves[i].fen)
    {
      assert moves[i].fen == fens[i];
      if i > 0 {
        assert moves[i - 1].fen == fens[i - 1];
      }
    }
  }

  /** One step of the scan, seen from the start of the text: the annotations read so far grow by the next capture. */
  lemma AnnotationsAppend(pgn: string, done: seq<string>, pos: nat, m: EvalMatch)
    requires EvalAnnotations(pgn, 0) == done + EvalAnnotations(pgn, pos)
    requires NextEval(pgn, pos) == Some(m)
    ensures EvalAnnotations(pgn, 0) == (done + [m.capture]) + EvalAnnotations(pgn, m.end)
  {
    AnnotationsStep(pgn, pos);
  }

  /** The second loop of `parsePGN`: the k-th annotation of the text goes to the k-th move, while both last. */
  method AssignEvals(pgn: string, parsed: seq<ParsedMove>, centipawns: string -> int) returns (moves: seq<ParsedMove>)
    requires forall k :: 0 <= k < |parsed| ==> parsed[k].eval.None?
    ensures |moves| == |parsed|
    ensures var anns := EvalAnnotations(pgn, 0);
      forall i :: 0 <= i < |parsed| ==>
        moves[i] == parsed[i].(eval := if i < |anns| then Some(centipawns(anns[i])) else None)
  {
    moves := parsed;
    var pos := 0;
    var evalIndex := 0;
    ghost var done: seq<string> := [];
    while true
      invariant pos <= |pgn| && |done| == evalIndex
      invariant EvalAnnotations(pgn, 0) == done + EvalAnnotations(pgn, pos)
      invariant EvalsLaid(parsed, moves, done, centipawns)
      decreases |pgn| - pos
    {
      var m := NextEval(pgn, pos);
      if m.None? || evalIndex >= |moves| {
        break;
      }
      AnnotationsAppend(pgn, done, pos, m.value);
      LayNext(parsed, moves, done, centipawns, m.value.capture);
      moves := moves[evalIndex := moves[evalIndex].(eval := Some(centipawns(m.value.capture)))];
      done := done + [m.value.capture];
      pos := m.value.end;
      evalIndex := evalIndex + 1;
    }
    AssignedEvals(pgn, parsed, moves, done, pos, centipawns);
  }

  /** The first moves carry the annotations read so far, converted; the others are untouched. */
  predicate EvalsLaid(parsed: seq<ParsedMove>, moves: seq<ParsedMove>, done: seq<string>, centipawns: string -> int) {
    && |done| <= |moves| == |parsed|
    && (forall k :: 0 <= k < |done| ==> moves[k] == parsed[k].(eval := Some(centipawns(done[k]))))
    && (forall k :: |done| <= k < |moves| ==> moves[k] == parsed[k])
  }

  /** Laying the next annotation on the next move. */
  lemma LayNext(parsed: seq<ParsedMove>, moves: seq<ParsedMove>, done: seq<string>, centipawns: string -> int, capture: string)
    requires EvalsLaid(parsed, moves, done, centipawns) && |done| < |moves|
    ensures EvalsLaid(parsed, moves[|done| := moves[|done|].(eval := Some(centipawns(capture)))], done + [capture], centipawns)
  {
  }

  /** When the scan stops (no match left, or every move has its annotation), every move carries the annotation of its index, if any. */
  lemma AssignedEvals(pgn: string, parsed: seq<ParsedMove>, moves: seq<ParsedMove>, done: seq<string>, pos: nat,
                      centipawns: string -> int)
    requires forall k :: 0 <= k < |parsed| ==> parsed[k].eval.None?
    requires EvalAnnotations(pgn, 0) == done + EvalAnnotations(pgn, pos)
    requires EvalsLaid(parsed, moves, done, centipawns)
    requires NextEval(pgn, pos).None? || |done| >= |moves|
    ensures var anns := EvalAnnotations(pgn, 0);
      forall i :: 0 <= i < |parsed| ==>
        moves[i] == parsed[i].(eval := if i < |anns| then Some(centipawns(anns[i])) else None)
  {
    var anns := EvalAnnotations(pgn, 0);
    AnnotationsStep(pgn, pos);
    if |done| < |moves| {
      assert anns == done;
    }
    forall i | 0 <= i < |parsed|
      ensures moves[i] == parsed[i].(eval := if i < |anns| then Some(centipawns(anns[i])) else None)
    {
      if i < |done| {
        assert anns[i] == done[i];
      }
    }
  }

  /** `parsePGN`: the parsed moves of the replayed history, with the annotations laid onto them in order. */
  method ParsePgn(pgn: string, headers: map<string, string>, history: seq<HistoryMove>,
                  play: Play, centipawns: string -> int) returns (r: Option<ParsedGame>)
    ensures r.None? <==> Replay(play, StartingFen, history).None?
    ensures r.Some? ==> r.value.headers == headers && |r.value.moves| == |history|
    ensures r.Some? ==> forall i {:trigger history[i]} :: 0 <= i < |history| ==>
      var m := r.value.moves[i];
      && m.moveNumber == i / 2 + 1
      && m.color == history[i].color
      && m.san == history[i].san
      && play(if i == 0 then StartingFen else r.value.moves[i - 1].fen, m.san) == Some(m.fen)
    ensures r.Some? ==> var anns := EvalAnnotations(pgn, 0);
      forall i :: 0 <= i < |history| ==>
        r.value.moves[i].eval == if i < |anns| then Some(centipawns(anns[i])) else None
  {
    var replayed := ReplayHistory(history, play);
    if replayed.None? {
      return None;
    }
    forall k | 0 <= k < |replayed.value| ensures replayed.value[k].eval.None? {
      assert history[k] == history[k];
    }
    var moves := AssignEvals(pgn, replayed.value, centipawns);
    forall i | 0 <= i < |moves|
      ensures moves[i].moveNumber == i / 2 + 1
    {
      assert replayed.value[i].moveNumber == MoveNumberFormula(i) by {
        assert history[i] == history[i];
      }
      MoveNumberOfPly(i);
    }
    forall i | 0 <= i < |history|
      ensures moves[i].color == history[i].color && moves[i].san == history[i].san
      ensures play(if i == 0 then StartingFen else moves[i - 1].fen, moves[i].san) == Some(moves[i].fen)
    {
      var p := replayed.value;
      assert p[i].san == history[i].san;
      assert moves[i].fen == p[i].fen && moves[i].san == p[i].san && moves[i].color == p[i].color;
      if i > 0 {
        assert moves[i - 1].fen == p[i - 1].fen;
      }
      assert play(if i == 0 then StartingFen else p[i - 1].fen, history[i].san) == Some(p[i].fen);
    }
    r := Some(ParsedGame(headers, moves));
  }

  /** Move numbers never decrease from one ply to the next, and a white ply shares its number with the following black ply. */
  lemma MoveNumbersPairPlies(g: ParsedGame, i: nat)
    requires forall k :: 0 <= k < |g.moves| ==> g.moves[k].moveNumber == k / 2 + 1
    requires i + 1 < |g.moves|
    ensures g.moves[i].moveNumber <= g.moves[i + 1].moveNumber <= g.moves[i].moveNumber + 1
    ensures i % 2 == 0 ==> g.moves[i].moveNumber == g.moves[i + 1].moveNumber
  {
  }
}
