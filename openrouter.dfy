/**
 * The explanation service (apps/api/src/services/openrouter.ts): the
 * evaluation-context categories, the template explanation used whenever the
 * language model is unavailable, and the choice between that template and
 * the model's answer.
 */
module OpenRouter {
  import opened Optional
  import opened JsStrings
  import opened ChessTypes
  import Analyzer

  /** The French label of each tactical theme (`THEME_LABELS`). */
  function ThemeLabel(t: TacticalTheme): string {
    match t
    case Fork => "Fourchette"
    case Pin => "Clouage"
    case Skewer => "Enfilade"
    case BackRank => "Mat sur la dernière rangée"
    case Discovery => "Attaque à la découverte"
    case Deflection => "Déviation"
    case Decoy => "Attraction"
    case MateInN => "Mat en N coups"
    case TrappedPiece => "Pièce piégée"
  }

  /** `theme ? THEME_LABELS[theme] : undefined` */
  function LabelOf(theme: Option<TacticalTheme>): (r: Option<string>)
    ensures r.Some? <==> theme.Some?
    ensures theme.Some? ==> r.value == ThemeLabel(theme.value)
  {
    match theme
    case None => None
    case Some(t) => Some(ThemeLabel(t))
  }

  datatype ExplanationContext = ExplanationContext(
    fen: string,
    playedMoveSan: string,
    bestMoveSan: string,
    principalVariation: seq<string>,
    evalBefore: int,
    evalAfter: int,
    mistakeType: MistakeType,
    theme: Option<TacticalTheme>,
    phase: GamePhase,
    threats: seq<string>)

  /** Which of the five `buildEvalContext` sentences applies. */
  datatype EvalContextKind = WinningToLosing | AdvantageLost | MassiveLoss | SignificantLoss | PlainLoss

  /** The sentence of `buildEvalContext`: its kind and the loss (in centipawns) it prints in pawns. */
  datatype EvalContext = EvalContext(kind: EvalContextKind, delta: nat)

  const MassiveDelta := 300
  const SignificantDelta := 100

  /** `buildEvalContext`: the first of five cases that applies. */
  function BuildEvalContext(evalBefore: int, evalAfter: int): (r: EvalContext)
    ensures r.delta == Analyzer.Abs(evalBefore - evalAfter)
    ensures r.kind == WinningToLosing <==> evalBefore > 0 && evalAfter < 0
    ensures r.kind == AdvantageLost <==>
      !(evalBefore > 0 && evalAfter < 0) && evalBefore > 300 && evalAfter < 100
    ensures r.kind == MassiveLoss <==>
      !(evalBefore > 0 && evalAfter < 0) && !(evalBefore > 300 && evalAfter < 100) && r.delta >= MassiveDelta
    ensures r.kind == SignificantLoss <==>
      !(evalBefore > 0 && evalAfter < 0) && !(evalBefore > 300 && evalAfter < 100)
      && SignificantDelta <= r.delta < MassiveDelta
    ensures r.kind == PlainLoss <==>
      !(evalBefore > 0 && evalAfter < 0) && !(evalBefore > 300 && evalAfter < 100) && r.delta < SignificantDelta
  {
    var delta := Analyzer.Abs(evalBefore - evalAfter);
    if evalBefore > 0 && evalAfter < 0 then EvalContext(WinningToLosing, delta)
    else if evalBefore > 300 && evalAfter < 100 then EvalContext(AdvantageLost, delta)
    else if delta >= MassiveDelta then EvalContext(MassiveLoss, delta)
    else if delta >= SignificantDelta then EvalContext(SignificantLoss, delta)
    else EvalContext(PlainLoss, delta)
  }

  /** The explanation of an exercise (`ExerciseExplanation`). */
  datatype Explanation = Explanation(
    mistakeSummary: string,
    bestMoveReason: string,
    playedMoveWeakness: string,
    tip: string,
    theme: Option<TacticalTheme>,
    themeLabel: Option<string>,
    evalContext: EvalContext)

  /** The four texts of the template, chosen by the mistake type; `INACCURACY` takes the default branch. */
  datatype Texts = Texts(mistakeSummary: string, bestMoveReason: string, playedMoveWeakness: string, tip: string)

  function FallbackTexts(ctx: ExplanationContext): Texts {
    Texts(
      FallbackSummary(ctx.mistakeType, ctx.theme, ctx.bestMoveSan, ctx.playedMoveSan),
      FallbackReason(ctx.mistakeType, ctx.bestMoveSan),
      FallbackWeakness(ctx.mistakeType, ctx.playedMoveSan),
      FallbackTip(ctx.mistakeType))
  }

  /** The summary of each branch of the `switch`. */
  function FallbackSummary(t: MistakeType, theme: Option<TacticalTheme>, best: string, played: string): string {
    match t
    case TacticalMiss =>
      if theme.Some? then
        "Tu as raté une " + LowerAscii(ThemeLabel(theme.value)) + ". Le coup " + best + " exploitait une faille tactique."
      else "Tu as raté un coup tactique. " + best + " gagnait du matériel."
    case OpeningDeviation => "Tu t'es écarté de la ligne principale en ouverture avec " + played + "."
    case EndgameError => "Erreur technique en finale. " + best + " était le coup précis."
    case BlunderPositional => "Blunder positionnel avec " + played + "."
    case Inaccuracy => "Imprécision avec " + played + ". " + best + " était plus précis."
  }

  /** Why the best move was better, per branch. */
  function FallbackReason(t: MistakeType, best: string): string {
    match t
    case TacticalMiss => best + " crée une menace concrète que l'adversaire ne peut pas parer."
    case OpeningDeviation => best + " est le coup théorique qui maintient l'équilibre."
    case EndgameError => best + " progresse vers la promotion ou le gain matériel."
    case BlunderPositional => best + " maintenait une structure solide et de l'activité."
    case Inaccuracy => best + " est légèrement plus précis dans cette position."
  }

  /** What was wrong with the played move, per branch. */
  function FallbackWeakness(t: MistakeType, played: string): string {
    match t
    case TacticalMiss => played + " laisse passer l'opportunité tactique."
    case OpeningDeviation => played + " donne un léger avantage à l'adversaire."
    case EndgameError => played + " ralentit ou compromet ta conversion."
    case BlunderPositional => played + " affaiblit ta position sans compensation."
    case Inaccuracy => played + " est jouable mais pas optimal."
  }

  /** The general tip, per branch. */
  function FallbackTip(t: MistakeType): string {
    match t
    case TacticalMiss => "Avant de jouer, cherche les échecs, captures et menaces forcées."
    case OpeningDeviation => "Révise les lignes principales de tes ouvertures favorites."
    case EndgameError => "En finale, chaque tempo compte. Calcule les courses de pions."
    case BlunderPositional => "Évalue les conséquences positionnelles à long terme de chaque coup."
    case Inaccuracy => "Prends le temps de comparer tes candidats avant de jouer."
  }

  /** `buildFallbackExplanation`: the template texts with the context's theme, label and evaluation context. */
  function BuildFallbackExplanation(ctx: ExplanationContext): (r: Explanation)
    ensures Texts(r.mistakeSummary, r.bestMoveReason, r.playedMoveWeakness, r.tip) == FallbackTexts(ctx)
    ensures r.theme == ctx.theme
    ensures r.themeLabel.Some? <==> ctx.theme.Some?
    ensures ctx.theme.Some? ==> r.themeLabel == Some(ThemeLabel(ctx.theme.value))
    ensures r.evalContext == BuildEvalContext(ctx.evalBefore, ctx.evalAfter)
  {
    var t := FallbackTexts(ctx);
    Explanation(t.mistakeSummary, t.bestMoveReason, t.playedMoveWeakness, t.tip,
                ctx.theme, LabelOf(ctx.theme), BuildEvalContext(ctx.evalBefore, ctx.evalAfter))
  }

  /** The four text fields of the model's JSON answer; `None` where a field is absent or falsy. */
  datatype ModelFields = ModelFields(
    mistakeSummary: Option<string>,
    bestMoveReason: Option<string>,
    playedMoveWeakness: Option<string>,
    tip: Option<string>)

  /** How the HTTP exchange ended: an exception, a non-ok status, or a body with `choices[0].message.content` (absent when missing). */
  datatype Reply = Thrown | NotOk(status: int) | Answered(content: Option<string>)

  /** `parsed.field || ''` */
  function OrEmpty(field: Option<string>): string {
    field.GetOr("")
  }

  /**
   * `generateExplanation`: the model's texts when a key is configured, the exchange succeeds and its
   * content parses (`parse` stands for `JSON.parse` and field access, `None` where they throw);
   * the fallback otherwise. Theme, label and evaluation context always come from the context.
   */
  function GenerateExplanation(ctx: ExplanationContext, apiKey: string, reply: Reply,
                               parse: string -> Option<ModelFields>): (r: Explanation)
    ensures r.theme == ctx.theme && r.themeLabel == LabelOf(ctx.theme)
    ensures r.evalContext == BuildEvalContext(ctx.evalBefore, ctx.evalAfter)
  {
    if apiKey == "" then BuildFallbackExplanation(ctx)
    else
      match reply
      case Thrown => BuildFallbackExplanation(ctx)
      case NotOk(_) => BuildFallbackExplanation(ctx)
      case Answered(content) =>
        if content.None? || content.value == "" then BuildFallbackExplanation(ctx)
        else
          match parse(content.value)
          case None => BuildFallbackExplanation(ctx)
          case Some(f) =>
            Explanation(OrEmpty(f.mistakeSummary), OrEmpty(f.bestMoveReason), OrEmpty(f.playedMoveWeakness),
                        OrEmpty(f.tip), ctx.theme, LabelOf(ctx.theme),
                        BuildEvalContext(ctx.evalBefore, ctx.evalAfter))
  }

  /** The exchange produced the model's fields: a key, an ok reply with non-empty content that parses. */
  predicate Succeeded(apiKey: string, reply: Reply, parse: string -> Option<ModelFields>) {
    && apiKey != ""
    && reply.Answered?
    && reply.content.Some? && reply.content.value != ""
    && parse(reply.content.value).Some?
  }

  // ---- properties ----

  /** Every failure path (no key, a thrown error, a non-ok status, empty content, unparsable content) gives the fallback. */
  lemma FailureGivesFallback(ctx: ExplanationContext, apiKey: string, reply: Reply, parse: string -> Option<ModelFields>)
    requires !Succeeded(apiKey, reply, parse)
    ensures GenerateExplanation(ctx, apiKey, reply, parse) == BuildFallbackExplanation(ctx)
  {
  }

  /** On success the texts are the model's, with absent fields read as the empty text. */
  lemma SuccessUsesModelTexts(ctx: ExplanationContext, apiKey: string, reply: Reply, parse: string -> Option<ModelFields>)
    requires Succeeded(apiKey, reply, parse)
    ensures var r := GenerateExplanation(ctx, apiKey, reply, parse);
      var f := parse(reply.content.value).value;
      && r.mistakeSummary == OrEmpty(f.mistakeSummary)
      && r.bestMoveReason == OrEmpty(f.bestMoveReason)
      && r.playedMoveWeakness == OrEmpty(f.playedMoveWeakness)
      && r.tip == OrEmpty(f.tip)
      && (f.tip.None? ==> r.tip == "")
  {
  }

  /** Success and fallback differ only in the four texts. */
  lemma OnlyTextsComeFromModel(ctx: ExplanationContext, apiKey: string, reply: Reply, parse: string -> Option<ModelFields>)
    ensures var r := GenerateExplanation(ctx, apiKey, reply, parse);
      var fb := BuildFallbackExplanation(ctx);
      r.theme == fb.theme && r.themeLabel == fb.themeLabel && r.evalContext == fb.evalContext
  {
  }

  /** Apart from the summary, the fallback texts depend only on the mistake type and the two moves, never on the theme or the evaluations. */
  lemma FallbackFollowsType(c1: ExplanationContext, c2: ExplanationContext)
    requires c1.mistakeType == c2.mistakeType
    requires c1.bestMoveSan == c2.bestMoveSan && c1.playedMoveSan == c2.playedMoveSan
    ensures FallbackTexts(c1).bestMoveReason == FallbackTexts(c2).bestMoveReason
    ensures FallbackTexts(c1).playedMoveWeakness == FallbackTexts(c2).playedMoveWeakness
    ensures FallbackTexts(c1).tip == FallbackTexts(c2).tip
    ensures c1.mistakeType != TacticalMiss ==> FallbackTexts(c1).mistakeSummary == FallbackTexts(c2).mistakeSummary
  {
  }

  /** For a missed tactic, the summary names the theme's label, in lower case, exactly when a theme is present. */
  lemma TacticalSummaryNamesTheme(ctx: ExplanationContext)
    requires ctx.mistakeType == TacticalMiss
    ensures ctx.theme.Some? ==>
      StartsWith(FallbackTexts(ctx).mistakeSummary, "Tu as raté une " + LowerAscii(ThemeLabel(ctx.theme.value)) + ".")
    ensures ctx.theme.None? ==>
      StartsWith(FallbackTexts(ctx).mistakeSummary, "Tu as raté un coup tactique.")
  {
    var s := FallbackTexts(ctx).mistakeSummary;
    if ctx.theme.Some? {
      var p := "Tu as raté une " + LowerAscii(ThemeLabel(ctx.theme.value)) + ".";
      assert s == p + " Le coup " + ctx.bestMoveSan + " exploitait une faille tactique.";
      assert s[..|p|] == p;
    } else {
      var p := "Tu as raté un coup tactique.";
      assert s == p + " " + ctx.bestMoveSan + " gagnait du matériel.";
      assert s[..|p|] == p;
    }
  }

  /** No two themes share a label. */
  lemma ThemeLabelsDistinct(t1: TacticalTheme, t2: TacticalTheme)
    requires t1 != t2
    ensures ThemeLabel(t1) != ThemeLabel(t2)
  {
  }

  /** The context sentence agrees with the severity tier of the same loss. */
  lemma ContextAgreesWithSeverity(evalBefore: int, evalAfter: int)
    ensures var c := BuildEvalContext(evalBefore, evalAfter);
      var s := Analyzer.SeverityOf(c.delta);
      && (c.kind == AdvantageLost ==> s == BlunderTier)
      && (c.kind == MassiveLoss ==> s == BlunderTier)
      && (c.kind == SignificantLoss ==> s != InaccuracyTier)
      && (c.kind == PlainLoss ==> s != BlunderTier)
  {
  }

  /** A lost advantage always costs more than two pawns; a swing from winning to losing at least two centipawns. */
  lemma ContextLossBounds(evalBefore: int, evalAfter: int)
    ensures var c := BuildEvalContext(evalBefore, evalAfter);
      && (c.kind == AdvantageLost ==> c.delta > 200)
      && (c.kind == WinningToLosing ==> c.delta >= 2)
  {
  }
}
