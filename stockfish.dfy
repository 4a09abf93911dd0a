/**
 * The output handler of `analyzePosition` (apps/api/src/services/stockfish.ts):
 * a fold over the engine's Universal Chess Interface output lines that keeps a
 * running centipawn score and principal variation, and settles on the first
 * `bestmove` line.
 */
module Stockfish {
  import opened Optional
  import opened JsStrings

  /** The depth `analyzePosition` searches to when the caller gives none. */
  const DefaultDepth: nat := 20

  /** What the returned promise resolves to; `bestMove` is absent when the `bestmove` line has no second token. */
  datatype AnalysisResult = AnalysisResult(bestMove: Option<string>, eval: int, depth: nat, pv: seq<string>)

  /** The handler's two mutable variables, `currentEval` and `pv`. */
  datatype EngineState = EngineState(eval: int, pv: seq<string>)

  const Initial := EngineState(0, [])

  const ScoreTag := "score cp "

  /** The literal in front of the variation in `/pv (.+)/`, as the handler is written. */
  const PvTagAsWritten := "pv "

  /** The same literal anchored on the preceding space, so that `multipv` does not match. */
  const PvTag := " pv "

  // ---- /score cp (-?\d+)/ ----

  /** The value `parseInt` reads from the capture of `/score cp (-?\d+)/` when a match starts at `i`. */
  function CpMatchAt(s: string, i: nat): Option<int> {
    if !OccursAt(s, ScoreTag, i) then None
    else
      var k := i + |ScoreTag|;
      if k + 1 < |s| && s[k] == '-' && IsDigit(s[k + 1]) then
        Some(-(DigitsValue(s[k + 1..DigitRunEnd(s, k + 1)]) as int))
      else if k < |s| && IsDigit(s[k]) then
        Some(DigitsValue(s[k..DigitRunEnd(s, k)]))
      else None
  }

  /** The leftmost index at or after `from` where `/score cp (-?\d+)/` matches. */
  function CpMatchIndex(s: string, from: nat): (r: Option<nat>)
    decreases |s| - from
    ensures r.Some? ==> from <= r.value && CpMatchAt(s, r.value).Some?
    ensures forall j: nat :: from <= j && (r.None? || j < r.value) ==> CpMatchAt(s, j).None?
  {
    if from >= |s| then None
    else if CpMatchAt(s, from).Some? then Some(from)
    else CpMatchIndex(s, from + 1)
  }

  /** `parseInt(line.match(/score cp (-?\d+)/)[1])`, absent when the pattern does not match. */
  function CpScore(line: string): Option<int> {
    match CpMatchIndex(line, 0)
    case None => None
    case Some(i) => CpMatchAt(line, i)
  }

  // ---- /pv (.+)/ ----

  /** The capture of `(.+)` after `tag` when a match starts at `i`: the rest of the line up to a line terminator, at least one character. */
  function PvMatchAt(s: string, tag: string, i: nat): Option<string> {
    var k := i + |tag|;
    if OccursAt(s, tag, i) && k < |s| && !IsLineTerminator(s[k]) then Some(s[k..LineRunEnd(s, k)])
    else None
  }

  /** The leftmost index at or after `from` where `tag` followed by `(.+)` matches. */
  function PvMatchIndex(s: string, tag: string, from: nat): (r: Option<nat>)
    decreases |s| - from
    ensures r.Some? ==> from <= r.value && PvMatchAt(s, tag, r.value).Some?
    ensures forall j: nat :: from <= j && (r.None? || j < r.value) ==> PvMatchAt(s, tag, j).None?
  {
    if from >= |s| then None
    else if PvMatchAt(s, tag, from).Some? then Some(from)
    else PvMatchIndex(s, tag, from + 1)
  }

  function PvCapture(line: string, tag: string): Option<string> {
    match PvMatchIndex(line, tag, 0)
    case None => None
    case Some(i) => PvMatchAt(line, tag, i)
  }

  /** `pvMatch[1].trim().split(' ')` */
  function PvMoves(capture: string): seq<string> {
    Split(Trim(capture), ' ')
  }

  // ---- the per-line handler ----

  /** The guard of the update: the line reports the requested depth and carries a centipawn score. */
  predicate IsScoreLine(line: string, depth: nat) {
    StartsWith(line, "info depth " + NatToString(depth)) && Includes(line, "score cp")
  }

  predicate IsBestMoveLine(line: string) {
    StartsWith(line, "bestmove")
  }

  /** `line.split(' ')[1]`, absent (`undefined`) when the line has no space. */
  function BestMoveToken(line: string): Option<string> {
    var parts := Split(line, ' ');
    if |parts| >= 2 then Some(parts[1]) else None
  }

  /** The score-line update, with the variation located after `tag`. */
  function HandleInfoWith(st: EngineState, line: string, depth: nat, tag: string): EngineState {
    if !IsScoreLine(line, depth) then st
    else
      var eval := match CpScore(line) case Some(v) => v case None => st.eval;
      var pv := match PvCapture(line, tag) case Some(c) => PvMoves(c) case None => st.pv;
      EngineState(eval, pv)
  }

  /** The handler as written: the variation is whatever follows the first `pv `. */
  function HandleInfoAsWritten(st: EngineState, line: string, depth: nat): EngineState {
    HandleInfoWith(st, line, depth, PvTagAsWritten)
  }

  /** The handler with the variation located after the ` pv ` token. */
  function HandleInfo(st: EngineState, line: string, depth: nat): EngineState {
    HandleInfoWith(st, line, depth, PvTag)
  }

  /** The running state after the handler, reading the variation after `tag`, has seen `lines`, in order. */
  function StateAfter(lines: seq<string>, depth: nat, tag: string): EngineState {
    if |lines| == 0 then Initial
    else HandleInfoWith(StateAfter(lines[..|lines| - 1], depth, tag), lines[|lines| - 1], depth, tag)
  }

  /**
   * What the promise has resolved to after `lines`: a `bestmove` line resolves it with the
   * running state, and a promise that has resolved ignores later calls to `resolve`.
   */
  function Outcome(lines: seq<string>, depth: nat, tag: string): (r: Option<AnalysisResult>)
    ensures r.Some? ==> r.value.depth == depth
  {
    if |lines| == 0 then None
    else
      var earlier := Outcome(lines[..|lines| - 1], depth, tag);
      var line := lines[|lines| - 1];
      if earlier.Some? then earlier
      else if IsBestMoveLine(line) then
        var st := StateAfter(lines, depth, tag);
        Some(AnalysisResult(BestMoveToken(line), st.eval, depth, st.pv))
      else None
  }

  /**
   * The loop over output lines with its two mutable variables. As written, the variation is read
   * after the first `pv ` (`tag` left at its default); passing `PvTag` gives the corrected handler.
   */
  method AnalyzeOutput(lines: seq<string>, depth: nat := DefaultDepth, tag: string := PvTagAsWritten)
    returns (r: Option<AnalysisResult>)
    ensures r == Outcome(lines, depth, tag)
  {
    var currentEval := 0;
    var pv: seq<string> := [];
    r := None;
    for i := 0 to |lines|
      invariant EngineState(currentEval, pv) == StateAfter(lines[..i], depth, tag)
      invariant r == Outcome(lines[..i], depth, tag)
    {
      var line := lines[i];
      assert lines[..i + 1][..i] == lines[..i];
      if IsScoreLine(line, depth) {
        var cpMatch := CpScore(line);
        var pvMatch := PvCapture(line, tag);
        if cpMatch.Some? {
          currentEval := cpMatch.value;
        }
        if pvMatch.Some? {
          pv := PvMoves(pvMatch.value);
        }
      }
      if IsBestMoveLine(line) && r.None? {
        r := Some(AnalysisResult(BestMoveToken(line), currentEval, depth, pv));
      }
    }
    assert lines[..|lines|] == lines;
  }

  /** `analyzePosition(fen)` without a depth: the handler as written, at depth 20. */
  method AnalyzeAtDefaultDepth(lines: seq<string>) returns (r: Option<AnalysisResult>)
    ensures r == Outcome(lines, DefaultDepth, PvTagAsWritten)
    ensures r.Some? ==> r.value.depth == 20
  {
    r := AnalyzeOutput(lines);
  }

  // ---- properties ----

  /** The running state moves only on score lines of the requested depth; a `score mate` line without `score cp` leaves it alone. */
  lemma OnlyScoreLinesUpdate(st: EngineState, line: string, depth: nat, tag: string)
    requires !StartsWith(line, "info depth " + NatToString(depth)) || !Includes(line, "score cp")
    ensures HandleInfoWith(st, line, depth, tag) == st
  {
  }

  /** A score line without a readable `score cp` value keeps the running eval. */
  lemma UnreadableScoreKeepsEval(st: EngineState, line: string, depth: nat, tag: string)
    requires CpScore(line).None?
    ensures HandleInfoWith(st, line, depth, tag).eval == st.eval
  {
  }

  /** Until a score line of the requested depth arrives, the eval is 0 and the variation empty. */
  lemma {:induction false} StartsAtZero(lines: seq<string>, depth: nat, tag: string)
    requires forall j :: 0 <= j < |lines| ==> !IsScoreLine(lines[j], depth)
    ensures StateAfter(lines, depth, tag) == Initial
  {
    if |lines| > 0 {
      StartsAtZero(lines[..|lines| - 1], depth, tag);
    }
  }

  /** The promise stays pending exactly while no `bestmove` line has arrived. */
  lemma {:induction false} PendingWithoutBestMove(lines: seq<string>, depth: nat, tag: string)
    ensures Outcome(lines, depth, tag).None? <==> forall j :: 0 <= j < |lines| ==> !IsBestMoveLine(lines[j])
  {
    if |lines| > 0 {
      var init := lines[..|lines| - 1];
      PendingWithoutBestMove(init, depth, tag);
      assert forall j :: 0 <= j < |init| ==> init[j] == lines[j];
    }
  }

  /** The first `bestmove` line decides the result: its second token, with the state reached at that line. */
  lemma {:induction false} FirstBestMoveDecides(lines: seq<string>, depth: nat, tag: string, k: nat)
    requires k < |lines| && IsBestMoveLine(lines[k])
    requires forall j :: 0 <= j < k ==> !IsBestMoveLine(lines[j])
    ensures var st := StateAfter(lines[..k + 1], depth, tag);
      Outcome(lines, depth, tag) == Some(AnalysisResult(BestMoveToken(lines[k]), st.eval, depth, st.pv))
  {
    if k + 1 == |lines| {
      var init := lines[..k];
      PendingWithoutBestMove(init, depth, tag);
      assert forall j :: 0 <= j < |init| ==> init[j] == lines[j];
      assert lines[..k + 1] == lines;
    } else {
      var init := lines[..|lines| - 1];
      FirstBestMoveDecides(init, depth, tag, k);
      assert init[..k + 1] == lines[..k + 1];
    }
  }

  /** Lines after the first `bestmove` line do not change the result. */
  lemma {:induction false} LaterLinesIgnored(lines: seq<string>, more: seq<string>, depth: nat, tag: string)
    requires Outcome(lines, depth, tag).Some?
    ensures Outcome(lines + more, depth, tag) == Outcome(lines, depth, tag)
  {
    if |more| > 0 {
      var init := more[..|more| - 1];
      LaterLinesIgnored(lines, init, depth, tag);
      assert (lines + more)[..|lines + more| - 1] == lines + init;
    } else {
      assert lines + more == lines;
    }
  }

  /** The `bestmove` token: the move after `bestmove `, up to the next space. */
  lemma BestMoveTokenRoundTrip(move: string, rest: string)
    requires ' ' !in move
    requires rest == [] || rest[0] == ' '
    ensures BestMoveToken("bestmove " + move + rest) == Some(move)
  {
    var line := "bestmove " + move + rest;
    var j := 9 + |move|;
    assert line[..8] == "bestmove" && line[8] == ' ';
    assert line[9..j] == move;
    assert j < |line| ==> line[j] == rest[0];
    SplitSecond(line, ' ', 8, j);
  }

  /** `LineRunEnd` stops at the first line terminator, or at the end. */
  lemma LineRunEndAt(s: string, i: nat, e: nat)
    requires i <= e <= |s| && forall k :: i <= k < e ==> !IsLineTerminator(s[k])
    requires e == |s| || IsLineTerminator(s[e])
    ensures LineRunEnd(s, i) == e
  {
    var d := LineRunEnd(s, i);
    assert !(d < e) && !(e < d);
  }

  /** The printed digits of `m` at `k`, not followed by a digit, are a digit run that reads `m`. */
  lemma DigitsAt(s: string, k: nat, m: nat)
    requires k + |NatToString(m)| <= |s| && s[k..k + |NatToString(m)|] == NatToString(m)
    requires k + |NatToString(m)| == |s| || !IsDigit(s[k + |NatToString(m)|])
    ensures k < |s| && IsDigit(s[k])
    ensures DigitRunEnd(s, k) == k + |NatToString(m)| && DigitsValue(s[k..DigitRunEnd(s, k)]) == m
  {
    var n := NatToString(m);
    NatToStringRoundTrip(m);
    assert s[k] == n[0];
    DigitRunEndAt(s, k, k + |n|);
  }

  /** `score cp -` followed by the printed digits of `m` reads `-m`. */
  lemma CpMatchNegative(s: string, i: nat, m: nat)
    requires OccursAt(s, ScoreTag, i)
    requires var k := i + |ScoreTag|; var n := NatToString(m);
      && k + 1 + |n| <= |s| && s[k] == '-' && s[k + 1..k + 1 + |n|] == n
      && (k + 1 + |n| == |s| || !IsDigit(s[k + 1 + |n|]))
    ensures CpMatchAt(s, i) == Some(-(m as int))
  {
    DigitsAt(s, i + |ScoreTag| + 1, m);
  }

  /** `score cp ` followed by the printed digits of `m` reads `m`. */
  lemma CpMatchNonNegative(s: string, i: nat, m: nat)
    requires OccursAt(s, ScoreTag, i)
    requires var k := i + |ScoreTag|; var n := NatToString(m);
      && k + |n| <= |s| && s[k..k + |n|] == n
      && (k + |n| == |s| || !IsDigit(s[k + |n|]))
    ensures CpMatchAt(s, i) == Some(m)
  {
    DigitsAt(s, i + |ScoreTag|, m);
  }

  /** A match of `/score cp (-?\d+)/` at `i` on the printed text of `v` reads `v`. */
  lemma CpMatchAtPrinted(s: string, i: nat, v: int)
    requires OccursAt(s, ScoreTag, i)
    requires var k := i + |ScoreTag|; var n := IntToString(v);
      && k + |n| <= |s| && s[k..k + |n|] == n
      && (k + |n| == |s| || !IsDigit(s[k + |n|]))
    ensures CpMatchAt(s, i) == Some(v)
  {
    var k := i + |ScoreTag|;
    if v < 0 {
      var n := NatToString(-v);
      assert s[k..k + 1 + |n|] == "-" + n;
      assert s[k] == '-';
      assert s[k + 1..k + 1 + |n|] == n;
      CpMatchNegative(s, i, -v);
    } else {
      CpMatchNonNegative(s, i, v);
    }
  }

  /** Reading back a printed centipawn score: `score cp ` followed by `${v}` reads as `v`. */
  lemma {:induction false} CpScoreRoundTrip(s: string, head: string, v: int, tail: string)
    requires s == head + ScoreTag + IntToString(v) + tail
    requires forall j: nat :: j < |head| ==> !OccursAt(s, ScoreTag, j)
    requires tail == [] || !IsDigit(tail[0])
    ensures CpScore(s) == Some(v)
  {
    var n := IntToString(v);
    var k := |head| + |ScoreTag|;
    assert s[|head|..k] == ScoreTag;
    assert s[k..k + |n|] == n;
    assert k + |n| < |s| ==> s[k + |n|] == tail[0];
    CpMatchAtPrinted(s, |head|, v);
    assert CpMatchIndex(s, 0) == Some(|head|);
  }

  /** A move of the variation as the engine prints it: non-empty, with no white space. */
  predicate IsMoveToken(m: string) {
    |m| >= 1 && forall k :: 0 <= k < |m| ==> !IsWhiteSpace(m[k])
  }

  /** The variation printed with single spaces starts and ends with a move character and has only spaces between. */
  lemma {:induction false} JoinedMoves(moves: seq<string>)
    requires |moves| >= 1 && forall i :: 0 <= i < |moves| ==> IsMoveToken(moves[i])
    ensures var t := Join(moves, ' ');
      && |t| >= 1 && !IsWhiteSpace(t[0]) && !IsWhiteSpace(t[|t| - 1])
      && forall k :: 0 <= k < |t| ==> !IsLineTerminator(t[k])
  {
    var t := Join(moves, ' ');
    if |moves| > 1 {
      JoinedMoves(moves[1..]);
      var rest := Join(moves[1..], ' ');
      assert t == moves[0] + [' '] + rest;
      assert t[0] == moves[0][0];
      assert t[|t| - 1] == rest[|rest| - 1];
      forall k | 0 <= k < |t| ensures !IsLineTerminator(t[k]) {
        if k < |moves[0]| {
          assert t[k] == moves[0][k];
        } else if k > |moves[0]| {
          assert t[k] == rest[k - |moves[0]| - 1];
        }
      }
    } else {
      assert t == moves[0];
    }
  }

  /** Reading back a printed variation: ` pv ` followed by the moves joined with spaces gives the moves. */
  lemma {:induction false} PvRoundTrip(s: string, head: string, moves: seq<string>)
    requires |moves| >= 1 && forall i :: 0 <= i < |moves| ==> IsMoveToken(moves[i])
    requires s == head + PvTag + Join(moves, ' ')
    requires forall j: nat :: j < |head| ==> !OccursAt(s, PvTag, j)
    ensures match PvCapture(s, PvTag)
      case Some(c) => PvMoves(c) == moves
      case None => false
  {
    var t := Join(moves, ' ');
    var k := |head| + |PvTag|;
    JoinedMoves(moves);
    assert s[|head|..k] == PvTag;
    assert s[k..] == t;
    assert forall j :: k <= j < |s| ==> s[j] == t[j - k];
    LineRunEndAt(s, k, |s|);
    assert s[k] == t[0];
    assert OccursAt(s, PvTag, |head|);
    assert k < |s|;
    assert !IsLineTerminator(s[k]);
    assert s[k..|s|] == t;
    assert PvMatchAt(s, PvTag, |head|) == Some(t);
    assert PvMatchIndex(s, PvTag, 0) == Some(|head|);
    TrimUnchanged(t);
    SplitJoin(moves, ' ');
  }

  /**
   * A score line as the engine prints it, with the score and the variation at the positions the
   * two patterns find first, updates the state to exactly that score and variation.
   */
  lemma ScoreLineRoundTrip(st: EngineState, depth: nat, line: string, head: string, v: int, moves: seq<string>)
    requires StartsWith(head, "info depth " + NatToString(depth))
    requires |moves| >= 1 && forall i :: 0 <= i < |moves| ==> IsMoveToken(moves[i])
    requires line == head + ScoreTag + IntToString(v) + PvTag + Join(moves, ' ')
    requires forall j: nat :: j < |head| ==> !OccursAt(line, ScoreTag, j)
    requires forall j: nat :: j < |head| + |ScoreTag| + |IntToString(v)| ==> !OccursAt(line, PvTag, j)
    ensures HandleInfo(st, line, depth) == EngineState(v, moves)
  {
    var scored := head + ScoreTag + IntToString(v);
    var tail := PvTag + Join(moves, ' ');
    ScoreLineParts(line, head, IntToString(v), Join(moves, ' '));
    ScoreLineGuard(line, depth, head);
    CpScoreRoundTrip(line, head, v, tail);
    PvRoundTrip(line, scored, moves);
    UpdateFromParts(st, line, depth, v, moves);
  }

  /** How a score line splits into its parts. */
  lemma ScoreLineParts(line: string, head: string, score: string, rest: string)
    requires line == head + ScoreTag + score + PvTag + rest
    ensures line == head + ScoreTag + score + (PvTag + rest)
    ensures |head| + |ScoreTag| <= |line| && line[..|head|] == head && line[|head|..|head| + |ScoreTag|] == ScoreTag
  {
  }

  /** The update of a score line whose score and variation read as `v` and `moves`. */
  lemma UpdateFromParts(st: EngineState, line: string, depth: nat, v: int, moves: seq<string>)
    requires IsScoreLine(line, depth) && CpScore(line) == Some(v)
    requires match PvCapture(line, PvTag)
      case Some(c) => PvMoves(c) == moves
      case None => false
    ensures HandleInfo(st, line, depth) == EngineState(v, moves)
  {
  }

  lemma ScoreLineGuard(line: string, depth: nat, head: string)
    requires StartsWith(head, "info depth " + NatToString(depth))
    requires |head| + |ScoreTag| <= |line| && line[..|head|] == head && line[|head|..|head| + |ScoreTag|] == ScoreTag
    ensures IsScoreLine(line, depth)
  {
    var prefix := "info depth " + NatToString(depth);
    assert line[..|prefix|] == head[..|prefix|];
    assert line[|head|..|head| + 8] == line[|head|..|head| + |ScoreTag|][..8];
    assert OccursAt(line, "score cp", |head|);
  }

  /** A line of multi-variation output as the engine prints it at depth 1. */
  const MultipvLine := "info depth 1 multipv 1 score cp 5 pv e2e4"

  lemma MultipvLineIsScoreLine()
    ensures IsScoreLine(MultipvLine, 1)
  {
    assert MultipvLine[..12] == "info depth " + NatToString(1);
    assert MultipvLine[23..31] == "score cp";
    assert OccursAt(MultipvLine, "score cp", 23);
  }

  /** As written, the first `pv ` is the tail of `multipv`, at index 18 ... */
  lemma MultipvFirstPv()
    ensures forall j: nat :: j < 18 ==> !OccursAt(MultipvLine, PvTagAsWritten, j)
    ensures MultipvLine[18..21] == PvTagAsWritten
  {
    forall j: nat | j < 18 ensures !OccursAt(MultipvLine, PvTagAsWritten, j) {
      assert MultipvLine[j..j + 3][0] == MultipvLine[j] && MultipvLine[j..j + 3][1] == MultipvLine[j + 1];
      assert MultipvLine[j] != 'p' || MultipvLine[j + 1] != 'v';
    }
    assert MultipvLine[18] == 'p' && MultipvLine[19] == 'v' && MultipvLine[20] == ' ';
  }

  /** ... and what follows it, to the end of the line, is captured. */
  lemma MultipvCaptureAsWritten()
    ensures PvCapture(MultipvLine, PvTagAsWritten) == Some(MultipvLine[21..])
  {
    MultipvFirstPv();
    assert forall k :: 21 <= k < |MultipvLine| ==> !IsLineTerminator(MultipvLine[k]);
    CaptureToEnd(MultipvLine, PvTagAsWritten, 18);
    FirstPvMatch(MultipvLine, PvTagAsWritten, 18);
  }

  /** A tag followed by a non-empty rest of line without terminators captures that rest. */
  lemma CaptureToEnd(s: string, tag: string, i: nat)
    requires OccursAt(s, tag, i) && i + |tag| < |s|
    requires forall k :: i + |tag| <= k < |s| ==> !IsLineTerminator(s[k])
    ensures PvMatchAt(s, tag, i) == Some(s[i + |tag|..])
  {
    LineRunEndAt(s, i + |tag|, |s|);
    assert s[i + |tag|..|s|] == s[i + |tag|..];
  }

  /** A match with none before it is the one `exec` finds. */
  lemma FirstPvMatch(s: string, tag: string, i: nat)
    requires PvMatchAt(s, tag, i).Some?
    requires forall j: nat :: j < i ==> PvMatchAt(s, tag, j).None?
    ensures PvCapture(s, tag) == PvMatchAt(s, tag, i)
  {
    PvMatchFrom(s, tag, 0, i);
  }

  /** Scanning from `from`, the search stops at the first index where the pattern matches. */
  lemma {:induction false} PvMatchFrom(s: string, tag: string, from: nat, i: nat)
    requires from <= i && PvMatchAt(s, tag, i).Some?
    requires forall j: nat :: from <= j < i ==> PvMatchAt(s, tag, j).None?
    ensures PvMatchIndex(s, tag, from) == Some(i)
    decreases i - from
  {
    if from < i {
      PvMatchFrom(s, tag, from + 1, i);
    }
  }

  /** The text the handler as written captures does not split into the one-move variation. */
  lemma MultipvTailIsNotVariation()
    ensures PvMoves(MultipvLine[21..]) != ["e2e4"]
  {
    var c := MultipvLine[21..];
    assert |c| == 20 && c[0] == '1' && c[19] == '4';
    TrimUnchanged(c);
    JoinSplit(c, ' ');
  }

  /** Corrected, the first ` pv ` is at index 33, in front of the variation. */
  lemma MultipvCaptureCorrected()
    ensures match PvCapture(MultipvLine, PvTag)
      case Some(c) => PvMoves(c) == ["e2e4"]
      case None => false
  {
    forall j: nat | j < 33 ensures !OccursAt(MultipvLine, PvTag, j) {
      assert MultipvLine[j..j + 4][0] == MultipvLine[j] && MultipvLine[j..j + 4][1] == MultipvLine[j + 1];
      assert MultipvLine[j] != ' ' || MultipvLine[j + 1] != 'p';
    }
    assert MultipvLine == MultipvLine[..33] + PvTag + Join(["e2e4"], ' ');
    PvRoundTrip(MultipvLine, MultipvLine[..33], ["e2e4"]);
  }

  /** As written, the variation of a `multipv` line starts inside the `multipv 1` token; corrected, it is the variation. */
  lemma MultipvLineMisread()
    ensures HandleInfoAsWritten(Initial, MultipvLine, 1).pv != ["e2e4"]
    ensures HandleInfo(Initial, MultipvLine, 1).pv == ["e2e4"]
  {
    MultipvLineIsScoreLine();
    MultipvCaptureAsWritten();
    MultipvCaptureCorrected();
    MultipvTailIsNotVariation();
  }

  /** The score of the `multipv` line reads as 5. */
  lemma MultipvScore()
    ensures CpScore(MultipvLine) == Some(5)
  {
    forall j: nat | j < 23 ensures !OccursAt(MultipvLine, ScoreTag, j) {
      assert MultipvLine[j..j + 9][0] == MultipvLine[j];
      assert MultipvLine[j] != 's';
    }
    assert MultipvLine == MultipvLine[..23] + ScoreTag + IntToString(5) + " pv e2e4";
    CpScoreRoundTrip(MultipvLine, MultipvLine[..23], 5, " pv e2e4");
  }

  /**
   * The whole analysis of a `multipv` line followed by `bestmove e2e4`: as written, the result
   * carries a variation that is not the engine's; corrected, it carries `[e2e4]`.
   */
  lemma MultipvAnalysisMisread()
    ensures match Outcome([MultipvLine, "bestmove e2e4"], 1, PvTagAsWritten)
      case Some(a) => a.bestMove == Some("e2e4") && a.eval == 5 && a.pv != ["e2e4"]
      case None => false
    ensures Outcome([MultipvLine, "bestmove e2e4"], 1, PvTag)
      == Some(AnalysisResult(Some("e2e4"), 5, 1, ["e2e4"]))
  {
    MultipvLineMisread();
    MultipvScore();
    MultipvLineIsScoreLine();
    BestMoveLineE2e4();
    ScoreThenBestMove(MultipvLine, "bestmove e2e4", 1, PvTagAsWritten);
    ScoreThenBestMove(MultipvLine, "bestmove e2e4", 1, PvTag);
  }

  /** `bestmove e2e4` resolves with the move `e2e4`; the `multipv` line does not resolve. */
  lemma BestMoveLineE2e4()
    ensures !IsBestMoveLine(MultipvLine)
    ensures IsBestMoveLine("bestmove e2e4") && !IsScoreLine("bestmove e2e4", 1)
    ensures BestMoveToken("bestmove e2e4") == Some("e2e4")
  {
    var best := "bestmove e2e4";
    assert MultipvLine[0] != "bestmove"[0];
    assert best[..8] == "bestmove";
    var prefix := "info depth " + NatToString(1);
    assert prefix[0] == 'i' && best[0] == 'b';
    assert !StartsWith(best, prefix) by {
      if |prefix| <= |best| {
        assert best[..|prefix|][0] != prefix[0];
      }
    }
    assert "bestmove e2e4" == "bestmove " + "e2e4" + [];
    BestMoveTokenRoundTrip("e2e4", []);
  }

  /** A line that is not `bestmove`, then a `bestmove` line: the result carries the state after the first. */
  lemma ScoreThenBestMove(line: string, best: string, depth: nat, tag: string)
    requires !IsBestMoveLine(line) && IsBestMoveLine(best) && !IsScoreLine(best, depth)
    ensures var st := HandleInfoWith(Initial, line, depth, tag);
      Outcome([line, best], depth, tag) == Some(AnalysisResult(BestMoveToken(best), st.eval, depth, st.pv))
  {
    var lines := [line, best];
    assert lines[..1] == [line];
    assert [line][..0] == [];
    var st := HandleInfoWith(Initial, line, depth, tag);
    assert StateAfter([line], depth, tag) == st;
    assert Outcome([line], depth, tag) == None;
    assert StateAfter(lines, depth, tag) == HandleInfoWith(st, best, depth, tag) == st;
  }

  /** When the first `pv ` is preceded by a space, the handler as written and the corrected one agree. */
  lemma {:induction false} AsWrittenAgreesAfterSpace(s: string, i: nat)
    requires PvMatchIndex(s, PvTagAsWritten, 0) == Some(i)
    requires 1 <= i && s[i - 1] == ' '
    ensures PvCapture(s, PvTagAsWritten) == PvCapture(s, PvTag)
  {
    assert s[i - 1..i + 3] == [' '] + s[i..i + 3];
    assert PvMatchAt(s, PvTag, i - 1) == PvMatchAt(s, PvTagAsWritten, i);
    forall j: nat | j < i - 1 ensures PvMatchAt(s, PvTag, j).None? {
      assert PvMatchAt(s, PvTagAsWritten, j + 1).None?;
      if j + 4 <= |s| {
        assert s[j + 1..j + 4] == s[j..j + 4][1..];
      }
    }
    assert PvMatchIndex(s, PvTag, 0) == Some(i - 1);
  }
}
