/**
 * Fitting a conversation into a token budget: truncation with a digest marker, the summary message, the
 * newest messages, and compression of an already compressed context.
 */
module ContextWindow {
  import opened Common

  datatype Role = System | User | Assistant | Tool

  function RoleName(role: Role): string {
    match role
    case System => "system"
    case User => "user"
    case Assistant => "assistant"
    case Tool => "tool"
  }

  datatype AnyMessage = Message(role: Role, content: string)

  /** A context message is never empty. */
  type ContextMessage = m: AnyMessage | m.content != "" witness Message(User, "?")

  /** The twelve hexadecimal digits that identify a text. */
  type Digest = f: string -> string | forall s :: |f(s)| == 12 witness _ => "000000000000"

  datatype Settings = Settings(keepRecent: nat, maxTokens: nat) {
    ghost predicate Valid() {
      keepRecent >= 1 && maxTokens >= 32
    }
  }

  // ----- token estimates ------------------------------------------------------------------------------

  /** One token for every four characters, rounded up. */
  function TextTokens(text: string): nat {
    (|text| + 3) / 4
  }

  /** A text of `t` tokens has more than 4(t - 1) and at most 4t characters. */
  lemma TextTokensIsCeiling(text: string)
    ensures |text| <= 4 * TextTokens(text) < |text| + 4
  {
  }

  function Cost(m: AnyMessage): nat {
    TextTokens(RoleName(m.role)) + TextTokens(m.content) + 1
  }

  /** What a message costs besides its content. */
  lemma RoleCosts(m: AnyMessage)
    ensures Cost(m) - TextTokens(m.content) ==
            match m.role
            case System => 3
            case User => 2
            case Assistant => 4
            case Tool => 2
  {
  }

  function Estimate(messages: seq<ContextMessage>): nat {
    if messages == [] then 0 else Estimate(messages[..|messages| - 1]) + Cost(messages[|messages| - 1])
  }

  method EstimateContextTokens(messages: seq<ContextMessage>) returns (total: nat)
    ensures total == Estimate(messages)
  {
    total := 0;
    for i := 0 to |messages|
      invariant total == Estimate(messages[..i])
    {
      assert messages[..i + 1][..i] == messages[..i];
      total := total + TextTokens(RoleName(messages[i].role)) + TextTokens(messages[i].content) + 1;
    }
    assert messages[..|messages|] == messages;
  }

  lemma {:induction false} EstimateConcat(a: seq<ContextMessage>, b: seq<ContextMessage>)
    ensures Estimate(a + b) == Estimate(a) + Estimate(b)
  {
    if b == [] {
      assert a + b == a;
    } else {
      assert (a + b)[..|a + b| - 1] == a + b[..|b| - 1];
      EstimateConcat(a, b[..|b| - 1]);
    }
  }

  // ----- truncation -----------------------------------------------------------------------------------

  function Marker(digest: Digest, value: string): (marker: string)
    ensures |marker| == 28
  {
    "...[content:" + digest(value) + "]..."
  }

  function FitText(digest: Digest, value: string, maxChars: nat): string {
    if |value| <= maxChars then value
    else if maxChars <= 24 then value[..maxChars]
    else
      var marker := Marker(digest, value);
      var half := (maxChars - |marker|) / 2;
      var side := if half > 1 then half else 1;
      value[..side] + marker + value[|value| - side..]
  }

  /**
   * A text fitted to a budget of `tokens` stays within it, except that 28 characters are too few for the
   * marker: at a budget of exactly 7 tokens a longer text takes 8.
   */
  lemma FitTextTokens(digest: Digest, value: string, tokens: nat)
    requires tokens >= 1 && value != ""
    ensures var fitted := FitText(digest, value, 4 * tokens);
      && fitted != ""
      && (|value| <= 4 * tokens ==> fitted == value)
      && TextTokens(fitted) <= (if tokens == 7 && |value| > 28 then 8 else tokens)
      && (tokens == 7 && |value| > 28 ==> TextTokens(fitted) == 8)
      && (tokens != 7 && |value| > 4 * tokens ==> |fitted| < |value|)
  {
    hide Marker;
  }

  /**
   * A cut text keeps its beginning; with room for the marker it keeps as many characters of the end. Limits
   * of 25 to 29 characters give 30.
   */
  lemma FitTextKeepsEnds(digest: Digest, value: string, maxChars: nat)
    requires |value| > maxChars
    ensures var fitted := FitText(digest, value, maxChars);
      if maxChars <= 24 then |fitted| == maxChars && fitted <= value
      else
        && |fitted| == (if maxChars < 30 then 30 else maxChars - maxChars % 2)
        && var side := (|fitted| - 28) / 2;
           0 < side < |value| && fitted[..side] == value[..side] && fitted[|fitted| - side..] == value[|value| - side..]
  {
    hide Marker;
    if maxChars > 24 {
      var half := (maxChars - 28) / 2;
      Ends(value, Marker(digest, value), if half > 1 then half else 1);
    }
  }

  lemma Ends(value: string, marker: string, side: nat)
    requires 0 < side <= |value|
    ensures var fitted := value[..side] + marker + value[|value| - side..];
      |fitted| == |marker| + 2 * side && fitted[..side] == value[..side] && fitted[|fitted| - side..] == value[|value| - side..]
  {
  }

  // ----- the window -----------------------------------------------------------------------------------

  function Newest(recent: seq<ContextMessage>): ContextMessage
    requires recent != []
  {
    recent[|recent| - 1]
  }

  function SummaryBudget(recent: seq<ContextMessage>, maxTokens: nat): nat {
    var reserved := if recent == [] then 0 else Cost(Newest(recent));
    var kept := if reserved < maxTokens - 1 then reserved else maxTokens - 1;
    var budget := maxTokens - kept - TextTokens(RoleName(System)) - 1;
    if budget > 1 then budget else 1
  }

  function SummaryMessage(text: string): AnyMessage {
    Message(System, text)
  }

  function Remaining(fittedSummary: string, maxTokens: nat): nat {
    var cost := Cost(SummaryMessage(fittedSummary));
    if maxTokens > cost then maxTokens - cost else 0
  }

  /** Keeps messages from the newest back while they fit; a newest message that does not fit is truncated. */
  function Keep(digest: Digest, recent: seq<ContextMessage>, remaining: nat, keptAny: bool): seq<ContextMessage> {
    if recent == [] then []
    else
      var m := Newest(recent);
      if Cost(m) <= remaining then Keep(digest, recent[..|recent| - 1], remaining - Cost(m), true) + [m]
      else if !keptAny then Truncated(digest, m, remaining)
      else []
  }

  function Truncated(digest: Digest, m: ContextMessage, remaining: nat): seq<ContextMessage> {
    var tokens := remaining - TextTokens(RoleName(m.role)) - 1;
    if tokens < 1 then []
    else
      FitTextTokens(digest, m.content, tokens);
      var fitted: ContextMessage := m.(content := FitText(digest, m.content, 4 * tokens));
      if Cost(fitted) <= remaining then [fitted] else []
  }

  function FittedSummary(digest: Digest, recent: seq<ContextMessage>, summary: string, maxTokens: nat): string {
    FitText(digest, summary, SummaryBudget(recent, maxTokens) * 4)
  }

  function Fitted(digest: Digest, recent: seq<ContextMessage>, summary: string, maxTokens: nat): seq<ContextMessage> {
    Keep(digest, recent, Remaining(FittedSummary(digest, recent, summary, maxTokens), maxTokens), false)
  }

  /** The estimate of a summary followed by messages. */
  function WindowTokens(summary: string, recent: seq<ContextMessage>): nat {
    Cost(SummaryMessage(summary)) + Estimate(recent)
  }

  lemma {:induction false} KeepFits(digest: Digest, recent: seq<ContextMessage>, remaining: nat, keptAny: bool)
    ensures Estimate(Keep(digest, recent, remaining, keptAny)) <= remaining
  {
    if recent != [] {
      var m := Newest(recent);
      var init := recent[..|recent| - 1];
      if Cost(m) <= remaining {
        KeepFits(digest, init, remaining - Cost(m), true);
        EstimateConcat(Keep(digest, init, remaining - Cost(m), true), [m]);
        assert Estimate([m]) == Cost(m);
      } else if !keptAny && Truncated(digest, m, remaining) != [] {
        var t := Truncated(digest, m, remaining);
        assert Estimate(t) == Cost(t[0]);
      }
    }
  }

  /** The summary never takes more than the whole budget, and it leaves room for the newest message if it can. */
  lemma SummaryFits(digest: Digest, recent: seq<ContextMessage>, summary: string, maxTokens: nat)
    requires maxTokens >= 32 && summary != ""
    ensures var fitted := FittedSummary(digest, recent, summary, maxTokens);
      fitted != "" && Cost(SummaryMessage(fitted)) + Remaining(fitted, maxTokens) == maxTokens
    ensures recent != [] ==>
      var newest := Cost(Newest(recent));
      var left := Remaining(FittedSummary(digest, recent, summary, maxTokens), maxTokens);
      && (newest <= maxTokens - 4 && !(newest == maxTokens - 10 && |summary| > 28) ==> newest <= left)
      && (newest == maxTokens - 10 && |summary| > 28 ==> left == maxTokens - 11)
      && (newest > maxTokens - 4 ==> left == maxTokens - 4)
  {
    FitTextTokens(digest, summary, SummaryBudget(recent, maxTokens));
    hide FitText;
  }

  /** Every window fits its budget. */
  lemma WindowFits(digest: Digest, recent: seq<ContextMessage>, summary: string, maxTokens: nat)
    requires maxTokens >= 32 && summary != ""
    ensures var fitted := FittedSummary(digest, recent, summary, maxTokens);
      fitted != "" && WindowTokens(fitted, Fitted(digest, recent, summary, maxTokens)) <= maxTokens
  {
    SummaryFits(digest, recent, summary, maxTokens);
    KeepFits(digest, recent, Remaining(FittedSummary(digest, recent, summary, maxTokens), maxTokens), false);
  }

  ghost predicate IsSuffix(part: seq<ContextMessage>, whole: seq<ContextMessage>) {
    |part| <= |whole| && part == whole[|whole| - |part|..]
  }

  lemma TruncatedShape(digest: Digest, m: ContextMessage, remaining: nat)
    ensures var t := Truncated(digest, m, remaining); t == [] || (|t| == 1 && t[0].role == m.role)
  {
    hide FitText, TextTokens;
  }

  lemma {:induction false} KeepSuffix(digest: Digest, recent: seq<ContextMessage>, remaining: nat, keptAny: bool)
    ensures var kept := Keep(digest, recent, remaining, keptAny);
      || IsSuffix(kept, recent)
      || (!keptAny && recent != [] && Cost(Newest(recent)) > remaining && |kept| == 1 && kept[0].role == Newest(recent).role)
  {
    hide Cost, Truncated, IsSuffix;
    EndsAreSuffixes(recent);
    if recent != [] {
      TruncatedShape(digest, Newest(recent), remaining);
      if Cost(Newest(recent)) <= remaining {
        var m := Newest(recent);
        var init := recent[..|recent| - 1];
        KeepSuffix(digest, init, remaining - Cost(m), true);
        SuffixAppend(Keep(digest, init, remaining - Cost(m), true), recent);
      }
    }
  }

  lemma EndsAreSuffixes(whole: seq<ContextMessage>)
    ensures IsSuffix([], whole) && IsSuffix(whole, whole)
  {
  }

  lemma SuffixAppend(part: seq<ContextMessage>, whole: seq<ContextMessage>)
    requires whole != [] && IsSuffix(part, whole[..|whole| - 1])
    ensures IsSuffix(part + [Newest(whole)], whole)
  {
  }

  predicate FitsVerbatim(newest: AnyMessage, summary: string, maxTokens: nat) {
    Cost(newest) <= maxTokens - 4 && !(Cost(newest) == maxTokens - 10 && |summary| > 28)
  }

  /**
   * What survives: a contiguous run of the newest messages, or the newest alone and truncated. The newest
   * message always survives, and it does so verbatim exactly when it costs at most maxTokens - 4 and is not
   * the one case in which the digest marker of the summary takes its last token.
   */
  lemma WindowKeepsNewest(digest: Digest, recent: seq<ContextMessage>, summary: string, maxTokens: nat)
    requires maxTokens >= 32 && summary != ""
    ensures var kept := Fitted(digest, recent, summary, maxTokens);
      && (recent == [] <==> kept == [])
      && (recent != [] ==>
            var newest := Newest(recent); var last := Newest(kept);
            && last.role == newest.role
            && (IsSuffix(kept, recent) || (|kept| == 1 && |last.content| < |newest.content|))
            && (last == newest <==> FitsVerbatim(newest, summary, maxTokens)))
  {
    var fitted := FittedSummary(digest, recent, summary, maxTokens);
    var left := Remaining(fitted, maxTokens);
    SummaryFits(digest, recent, summary, maxTokens);
    KeepSuffix(digest, recent, left, false);
    if recent != [] && Cost(Newest(recent)) > left {
      FitTextTokens(digest, Newest(recent).content, left - TextTokens(RoleName(Newest(recent).role)) - 1);
    }
  }

  /** One more older message would take more than `budget`. */
  ghost predicate LeavesNoRoom(kept: seq<ContextMessage>, all: seq<ContextMessage>, budget: int) {
    |kept| < |all| ==> Estimate(kept) + Cost(all[|all| - |kept| - 1]) > budget
  }

  /** Keeping goes on until the next older message does not fit any more. */
  lemma {:induction false} KeepIsMaximal(digest: Digest, recent: seq<ContextMessage>, remaining: nat, keptAny: bool)
    requires keptAny || (recent != [] && Cost(Newest(recent)) <= remaining)
    ensures var kept := Keep(digest, recent, remaining, keptAny); IsSuffix(kept, recent) && LeavesNoRoom(kept, recent, remaining)
  {
    hide *;
    EndsAreSuffixes(recent);
    NothingKept(recent, remaining);
    if recent == [] {
      KeepNone(digest, remaining, keptAny);
    } else {
      KeepNext(digest, recent, remaining, keptAny);
      if Cost(Newest(recent)) <= remaining {
        var init, left := recent[..|recent| - 1], remaining - Cost(Newest(recent));
        KeepIsMaximal(digest, init, left, true);
        MaximalStep(recent, Keep(digest, init, left, true), remaining);
      }
    }
  }

  lemma KeepNext(digest: Digest, recent: seq<ContextMessage>, remaining: nat, keptAny: bool)
    requires recent != []
    ensures var m := Newest(recent);
      Keep(digest, recent, remaining, keptAny) ==
        if Cost(m) <= remaining then Keep(digest, recent[..|recent| - 1], remaining - Cost(m), true) + [m]
        else if !keptAny then Truncated(digest, m, remaining) else []
  {
    hide Cost, Truncated;
  }

  lemma MaximalStep(recent: seq<ContextMessage>, kept: seq<ContextMessage>, remaining: nat)
    requires recent != [] && Cost(Newest(recent)) <= remaining
    requires var init := recent[..|recent| - 1];
      IsSuffix(kept, init) && LeavesNoRoom(kept, init, remaining - Cost(Newest(recent)))
    ensures var more := kept + [Newest(recent)]; IsSuffix(more, recent) && LeavesNoRoom(more, recent, remaining)
  {
    hide Cost, Estimate;
    EstimateLast(kept, Newest(recent));
    SuffixAppend(kept, recent);
  }

  lemma NothingKept(recent: seq<ContextMessage>, remaining: nat)
    ensures recent == [] || Cost(Newest(recent)) > remaining ==> LeavesNoRoom([], recent, remaining)
  {
    hide Cost;
  }

  lemma EstimateLast(messages: seq<ContextMessage>, m: ContextMessage)
    ensures Estimate(messages + [m]) == Estimate(messages) + Cost(m)
  {
    hide Cost;
  }

  /** A newest message that has to be cut fills what is left to the last token. */
  lemma CutFillsWindow(digest: Digest, recent: seq<ContextMessage>, summary: string, maxTokens: nat)
    requires maxTokens >= 32 && summary != "" && recent != []
    requires Cost(Newest(recent)) > Remaining(FittedSummary(digest, recent, summary, maxTokens), maxTokens)
    ensures var kept := Fitted(digest, recent, summary, maxTokens);
      |kept| == 1 && WindowTokens(FittedSummary(digest, recent, summary, maxTokens), kept) == maxTokens
  {
    var left := Remaining(FittedSummary(digest, recent, summary, maxTokens), maxTokens);
    SummaryFits(digest, recent, summary, maxTokens);
    TruncatedFills(digest, Newest(recent), left);
    hide FittedSummary, Remaining, Truncated, Cost;
    var kept := Fitted(digest, recent, summary, maxTokens);
    assert kept == [] + [kept[0]];
    EstimateLast([], kept[0]);
  }

  lemma TruncatedFills(digest: Digest, m: ContextMessage, left: nat)
    requires Cost(m) > left >= 21
    ensures var t := Truncated(digest, m, left); |t| == 1 && Cost(t[0]) == left
  {
    var tokens := left - TextTokens(RoleName(m.role)) - 1;
    FitTextTokens(digest, m.content, tokens);
    FitTextKeepsEnds(digest, m.content, 4 * tokens);
    hide FitText;
  }

  /**
   * A window leaves a message out only if it does not fit any more: whatever the window holds, one more
   * older message would exceed the budget.
   */
  lemma WindowIsMaximal(digest: Digest, recent: seq<ContextMessage>, summary: string, maxTokens: nat)
    requires maxTokens >= 32 && summary != ""
    ensures LeavesNoRoom(Fitted(digest, recent, summary, maxTokens), recent,
                         maxTokens - Cost(SummaryMessage(FittedSummary(digest, recent, summary, maxTokens))))
  {
    var left := Remaining(FittedSummary(digest, recent, summary, maxTokens), maxTokens);
    SummaryFits(digest, recent, summary, maxTokens);
    CostPositive(recent);
    if recent == [] {
      KeepsNoMore(digest, recent, left, false);
    } else if Cost(Newest(recent)) <= left {
      hide Cost, Keep, FittedSummary, Remaining, Estimate, LeavesNoRoom;
      KeepIsMaximal(digest, recent, left, false);
    } else {
      hide Keep, FittedSummary, Remaining, Estimate, Fitted, Cost;
      CutFillsWindow(digest, recent, summary, maxTokens);
    }
  }

  lemma CostPositive(messages: seq<ContextMessage>)
    ensures forall i :: 0 <= i < |messages| ==> Cost(messages[i]) >= 1
  {
  }

  /**
   * The summary is cut only if it does not fit beside the newest message, and then it takes all that message
   * leaves, but for the one token of the digest marker.
   */
  lemma SummaryTakesTheRest(digest: Digest, recent: seq<ContextMessage>, summary: string, maxTokens: nat)
    requires maxTokens >= 32 && summary != "" && recent != [] && Cost(Newest(recent)) <= maxTokens - 4
    ensures var fitted := FittedSummary(digest, recent, summary, maxTokens);
      var newest := Cost(Newest(recent));
      if Cost(SummaryMessage(summary)) + newest <= maxTokens then fitted == summary
      else if newest == maxTokens - 10 then Cost(SummaryMessage(fitted)) + newest == maxTokens + 1
      else Cost(SummaryMessage(fitted)) + newest == maxTokens
  {
    var budget := SummaryBudget(recent, maxTokens);
    FitTextTokens(digest, summary, budget);
    if |summary| > 4 * budget {
      FitTextKeepsEnds(digest, summary, 4 * budget);
    }
    hide FitText;
  }

  lemma {:induction false} KeepAll(digest: Digest, recent: seq<ContextMessage>, remaining: nat, keptAny: bool)
    requires Estimate(recent) <= remaining
    ensures Keep(digest, recent, remaining, keptAny) == recent
  {
    hide Cost, Truncated;
    if recent != [] {
      assert recent == recent[..|recent| - 1] + [Newest(recent)];
      KeepAll(digest, recent[..|recent| - 1], remaining - Cost(Newest(recent)), true);
    }
  }

  /** A window that already fits is left as it is. */
  lemma FittingWindowIsFixed(digest: Digest, recent: seq<ContextMessage>, summary: string, maxTokens: nat)
    requires maxTokens >= 32 && summary != "" && WindowTokens(summary, recent) <= maxTokens
    ensures FittedSummary(digest, recent, summary, maxTokens) == summary
    ensures Fitted(digest, recent, summary, maxTokens) == recent
  {
    var budget := SummaryBudget(recent, maxTokens);
    if recent != [] {
      assert Cost(Newest(recent)) <= Estimate(recent);
    }
    assert TextTokens(summary) <= budget;
    FitTextTokens(digest, summary, budget);
    KeepAll(digest, recent, Remaining(summary, maxTokens), false);
  }

  /**
   * The trimming loop and the last fallback of the window fitting: oldest messages go until the window
   * fits; without any message left the summary is cut once more.
   */
  method TrimToBudget(digest: Digest, summary: string, fitted: string, recent: seq<ContextMessage>, maxTokens: nat)
    returns (text: string, kept: seq<ContextMessage>, total: nat)
    requires maxTokens >= 32 && summary != "" && fitted != ""
    ensures total == WindowTokens(text, kept) <= maxTokens
    ensures WindowTokens(fitted, recent) <= maxTokens ==> text == fitted && kept == recent
    ensures IsSuffix(kept, recent)
    ensures Cost(SummaryMessage(fitted)) <= maxTokens ==> text == fitted
  {
    text, kept := fitted, recent;
    total := WindowTokens(fitted, recent);
    while total > maxTokens && kept != []
      invariant text == fitted && total == WindowTokens(text, kept) && IsSuffix(kept, recent)
      invariant WindowTokens(fitted, recent) <= maxTokens ==> kept == recent
    {
      EstimateConcat([kept[0]], kept[1..]);
      assert kept == [kept[0]] + kept[1..];
      kept := kept[1..];
      total := WindowTokens(text, kept);
    }
    if total > maxTokens {
      var tokens := maxTokens - TextTokens(RoleName(System)) - 1;
      FitTextTokens(digest, summary, tokens);
      text := FitText(digest, summary, tokens * 4);
      total := WindowTokens(text, kept);
    }
  }

  /** The loop over the messages from the newest back. */
  method KeepNewest(digest: Digest, recent: seq<ContextMessage>, budget: nat) returns (kept: seq<ContextMessage>)
    ensures kept == Keep(digest, recent, budget, false)
  {
    hide *;
    var remaining: nat := budget;
    var reversed: seq<ContextMessage> := [];
    ghost var target := Keep(digest, recent, budget, false);
    var i := |recent|;
    assert recent[..i] == recent;
    ReverseShort([]);
    while i > 0
      invariant 0 <= i <= |recent| && |reversed| == |recent| - i
      invariant Keep(digest, recent[..i], remaining, i < |recent|) + Reverse(reversed) == target
    {
      var m := recent[i - 1];
      KeepUnfold(digest, recent, i, remaining, i < |recent|);
      if Cost(m) > remaining {
        if reversed == [] {
          reversed := Truncated(digest, m, remaining);
          ReverseShort(reversed);
        }
        return Reverse(reversed);
      }
      ReverseAppend(reversed, m);
      Reassociate(Keep(digest, recent[..i - 1], remaining - Cost(m), true), m, Reverse(reversed));
      reversed := reversed + [m];
      remaining := remaining - Cost(m);
      i := i - 1;
    }
    KeepNone(digest, remaining, 0 < |recent|);
    kept := Reverse(reversed);
  }

  lemma Reassociate(a: seq<ContextMessage>, m: ContextMessage, b: seq<ContextMessage>)
    ensures a + [m] + b == a + ([m] + b)
  {
  }

  lemma KeepNone(digest: Digest, remaining: nat, keptAny: bool)
    ensures Keep(digest, [], remaining, keptAny) == []
  {
  }

  /**
   * The whole of `_fit_model_window`. What it returns is the window built by its first two stages: the
   * trimming loop and the last fallback never change anything.
   */
  method FitModelWindow(digest: Digest, recent: seq<ContextMessage>, summary: string, maxTokens: nat)
    returns (text: string, kept: seq<ContextMessage>, total: nat)
    requires maxTokens >= 32 && summary != ""
    ensures text == FittedSummary(digest, recent, summary, maxTokens)
    ensures kept == Fitted(digest, recent, summary, maxTokens)
    ensures total == WindowTokens(text, kept) <= maxTokens
  {
    hide FitText, Keep, Remaining, SummaryBudget, WindowTokens;
    WindowFits(digest, recent, summary, maxTokens);
    var fittedSummary := FitText(digest, summary, SummaryBudget(recent, maxTokens) * 4);
    kept := KeepNewest(digest, recent, Remaining(fittedSummary, maxTokens));
    text, kept, total := TrimToBudget(digest, summary, fittedSummary, kept, maxTokens);
  }

  lemma KeepUnfold(digest: Digest, recent: seq<ContextMessage>, i: nat, left: nat, keptAny: bool)
    requires 0 < i <= |recent|
    ensures var m := recent[i - 1];
      Keep(digest, recent[..i], left, keptAny) ==
        if Cost(m) <= left then Keep(digest, recent[..i - 1], left - Cost(m), true) + [m]
        else if !keptAny then Truncated(digest, m, left) else []
    ensures |Truncated(digest, recent[i - 1], left)| <= 1
  {
    assert recent[..i][..i - 1] == recent[..i - 1];
  }

  lemma ReverseShort(s: seq<ContextMessage>)
    requires |s| <= 1
    ensures Reverse(s) == s
  {
  }

  lemma ReverseAppend(s: seq<ContextMessage>, m: ContextMessage)
    ensures Reverse(s + [m]) == [m] + Reverse(s)
  {
  }

  function Reverse(s: seq<ContextMessage>): seq<ContextMessage> {
    seq(|s|, i requires 0 <= i < |s| => s[|s| - 1 - i])
  }

  // ----- the recent tool window -----------------------------------------------------------------------

  function ToolIndices(messages: seq<ContextMessage>): seq<nat> {
    if messages == [] then []
    else
      var n := |messages| - 1;
      ToolIndices(messages[..n]) + if messages[n].role.Tool? then [n] else []
  }

  /** The first index of the newest `keepRecent` tool messages, or the end if there are no more than those. */
  function Breakpoint(messages: seq<ContextMessage>, keepRecent: nat): nat
    requires keepRecent >= 1
  {
    var tools := ToolIndices(messages);
    if |tools| <= keepRecent then |messages| else tools[|tools| - keepRecent]
  }

  lemma {:induction false} ToolIndicesFacts(messages: seq<ContextMessage>)
    ensures var tools := ToolIndices(messages);
      && |tools| <= |messages|
      && (forall k :: 0 <= k < |tools| ==> tools[k] < |messages| && messages[tools[k]].role.Tool?)
      && (forall j, k :: 0 <= j < k < |tools| ==> tools[j] < tools[k])
  {
    if messages != [] {
      ToolIndicesFacts(messages[..|messages| - 1]);
    }
  }

  const SUFFIX := "\n[...工具结果已精简]"

  function Bounded(m: ContextMessage, maxChars: nat): ContextMessage {
    if m.role.Tool? && |m.content| > maxChars then
      Message(Tool, m.content[..if maxChars > |SUFFIX| then maxChars - |SUFFIX| else 0] + SUFFIX)
    else m
  }

  function BoundedFrom(messages: seq<ContextMessage>, boundary: nat, maxChars: nat): seq<ContextMessage> {
    seq(|messages|, i requires 0 <= i < |messages| => if i < boundary then messages[i] else Bounded(messages[i], maxChars))
  }

  method CompressAfterBreakpoint(messages: seq<ContextMessage>, breakpointIndex: int, maxChars: nat) returns (result: seq<ContextMessage>)
    requires maxChars >= 1
    ensures result == BoundedFrom(messages, if breakpointIndex > 0 then breakpointIndex else 0, maxChars)
  {
    var boundary := if breakpointIndex > |messages| then |messages| else if breakpointIndex > 0 then breakpointIndex else 0;
    result := messages[..boundary];
    for i := boundary to |messages|
      invariant |result| == i
      invariant forall j :: 0 <= j < i ==> result[j] == if j < boundary then messages[j] else Bounded(messages[j], maxChars)
    {
      var m := messages[i];
      if !m.role.Tool? || |m.content| <= maxChars {
        result := result + [m];
      } else {
        var length := if maxChars - |SUFFIX| > 0 then maxChars - |SUFFIX| else 0;
        var bounded: ContextMessage := Message(m.role, m.content[..length] + SUFFIX);
        result := result + [bounded];
      }
    }
  }

  /** A tool observation behind the breakpoint meets its bound exactly if the bound holds the suffix or it was short. */
  lemma ToolBoundIff(m: ContextMessage, maxChars: nat)
    requires maxChars >= 1 && m.role.Tool?
    ensures |Bounded(m, maxChars).content| <= maxChars <==> maxChars >= 13 || |m.content| <= maxChars
  {
    assert |SUFFIX| == 13;
  }

  /** A cut tool result keeps its beginning and is exactly as long as allowed, and says that it was cut. */
  lemma CutKeepsBeginning(m: ContextMessage, maxChars: nat)
    requires m.role.Tool? && |m.content| > maxChars >= 13
    ensures var cut := Bounded(m, maxChars);
      && cut.role.Tool? && |cut.content| == maxChars
      && cut.content[..maxChars - 13] == m.content[..maxChars - 13]
      && cut.content[maxChars - 13..] == SUFFIX
  {
    assert |SUFFIX| == 13;
  }

  /** How many tool messages there are from index `i` on. */
  function ToolsFrom(messages: seq<ContextMessage>, i: nat): nat
    requires i <= |messages|
    decreases |messages| - i
  {
    if i == |messages| then 0 else ToolsFrom(messages, i + 1) + if messages[i].role.Tool? then 1 else 0
  }

  /** `list` holds the places of the tool messages in increasing order. */
  ghost predicate ToolPlaces(messages: seq<ContextMessage>, list: seq<nat>) {
    && (forall a, b :: 0 <= a < b < |list| ==> list[a] < list[b])
    && (forall a :: 0 <= a < |list| ==> list[a] < |messages| && messages[list[a]].role.Tool?)
    && (forall i :: 0 <= i < |messages| && messages[i].role.Tool? ==> i in list)
  }

  lemma {:induction false} ToolsFromIndices(messages: seq<ContextMessage>, list: seq<nat>, i: nat, k: nat)
    requires ToolPlaces(messages, list) && i <= |messages| && k <= |list|
    requires (forall a :: 0 <= a < k ==> list[a] < i) && forall a :: k <= a < |list| ==> list[a] >= i
    ensures ToolsFrom(messages, i) == |list| - k
    decreases |messages| - i
  {
    if i < |messages| {
      if messages[i].role.Tool? {
        var j :| 0 <= j < |list| && list[j] == i;
        OnlyPlace(list, i, k, j);
        ToolsFromIndices(messages, list, i + 1, k + 1);
      } else {
        ToolsFromIndices(messages, list, i + 1, k);
      }
    }
  }

  lemma IndicesArePlaces(messages: seq<ContextMessage>)
    ensures ToolPlaces(messages, ToolIndices(messages))
  {
    ToolIndicesFacts(messages);
    ToolIndicesComplete(messages);
  }

  /** In an increasing list `i` can only stand where the smaller numbers end. */
  lemma OnlyPlace(list: seq<nat>, i: nat, k: nat, j: nat)
    requires k <= |list| && j < |list| && list[j] == i && forall a, b :: 0 <= a < b < |list| ==> list[a] < list[b]
    requires (forall a :: 0 <= a < k ==> list[a] < i) && forall a :: k <= a < |list| ==> list[a] >= i
    ensures j == k
  {
    var first := if k < |list| then list[k] else i;
  }

  lemma {:induction false} ToolIndicesComplete(messages: seq<ContextMessage>)
    ensures forall i :: 0 <= i < |messages| && messages[i].role.Tool? ==> i in ToolIndices(messages)
  {
    if messages != [] {
      ToolIndicesComplete(messages[..|messages| - 1]);
    }
  }

  /**
   * Which tool messages lie behind the breakpoint: the newest `keepRecent` ones, if there are more than that.
   */
  lemma BreakpointIff(messages: seq<ContextMessage>, keepRecent: nat, i: nat)
    requires keepRecent >= 1 && i < |messages| && messages[i].role.Tool?
    ensures i >= Breakpoint(messages, keepRecent) <==>
            ToolsFrom(messages, 0) > keepRecent && ToolsFrom(messages, i) <= keepRecent
  {
    var tools := ToolIndices(messages);
    IndicesArePlaces(messages);
    hide ToolIndices;
    ToolsFromIndices(messages, tools, 0, 0);
    var k :| 0 <= k < |tools| && tools[k] == i;
    ToolsFromIndices(messages, tools, i, k);
  }

  /** Twelve characters are too few for the suffix of thirteen. */
  lemma SmallToolBoundExceeded(m: ContextMessage)
    requires m.role.Tool? && |m.content| > 12
    ensures |Bounded(m, 12).content| == 13
  {
    assert |SUFFIX| == 13;
  }

  lemma {:induction false} SameRolesSameTools(a: seq<ContextMessage>, b: seq<ContextMessage>)
    requires |a| == |b| && forall i :: 0 <= i < |a| ==> a[i].role == b[i].role
    ensures ToolIndices(a) == ToolIndices(b)
  {
    if a != [] {
      SameRolesSameTools(a[..|a| - 1], b[..|b| - 1]);
    }
  }

  function Condensed(messages: seq<ContextMessage>, keepRecent: nat): seq<ContextMessage>
    requires keepRecent >= 1
  {
    BoundedFrom(messages, Breakpoint(messages, keepRecent), 2000)
  }

  /**
   * Condensing leaves every message as it is except the tool results of more than 2000 characters among the
   * newest `keepRecent` ones, and those only if there are more tool messages than that.
   */
  lemma CondensedIs(messages: seq<ContextMessage>, keepRecent: nat, i: nat)
    requires keepRecent >= 1 && i < |messages|
    ensures |Condensed(messages, keepRecent)| == |messages|
    ensures var m := messages[i];
      if m.role.Tool? && |m.content| > 2000 && ToolsFrom(messages, 0) > keepRecent && ToolsFrom(messages, i) <= keepRecent
      then Condensed(messages, keepRecent)[i] == Bounded(m, 2000) && |Bounded(m, 2000).content| == 2000
      else Condensed(messages, keepRecent)[i] == m
  {
    if messages[i].role.Tool? {
      BreakpointIff(messages, keepRecent, i);
      if |messages[i].content| > 2000 {
        CutKeepsBeginning(messages[i], 2000);
      }
    }
    hide Breakpoint, ToolsFrom;
  }

  /** Condensing tool observations a second time changes nothing, and it moves no breakpoint. */
  lemma CondensedIsFixed(messages: seq<ContextMessage>, keepRecent: nat)
    requires keepRecent >= 1
    ensures Condensed(Condensed(messages, keepRecent), keepRecent) == Condensed(messages, keepRecent)
    ensures |messages| <= keepRecent ==> Condensed(messages, keepRecent) == messages
  {
    var once := Condensed(messages, keepRecent);
    SameRolesSameTools(messages, once);
    ToolIndicesFacts(messages);
    assert |SUFFIX| == 13;
  }

  // ----- whole contexts ----------------------------------------------------------------------------------

  /** The typed facts of a task: field names with their values. */
  type Summary = seq<(string, string)>

  datatype Status = NotNeeded | Applied | Degraded

  datatype ModelContext = ModelContext(
    summary: Summary, recent: seq<ContextMessage>, compressedCount: nat, totalCount: nat,
    estimatedTokens: nat, status: Status, reason: string, summaryText: string)

  /** Rendering of a typed summary and the empty summary; a rendering is never empty. */
  datatype Env = Env(digest: Digest, render: Summary -> string, emptySummary: Summary) {
    ghost predicate Valid() {
      forall s :: render(s) != ""
    }
  }

  datatype Input = Messages(messages: seq<ContextMessage>) | Context(context: ModelContext)

  datatype SummaryArgument = Absent | Invalid | Given(summary: Summary)

  function Tail(messages: seq<ContextMessage>, count: nat): seq<ContextMessage> {
    if count < |messages| then messages[|messages| - count..] else messages
  }

  function Max(x: int, y: int): int {
    if x >= y then x else y
  }

  function CompressedContext(env: Env, summary: Summary, full: seq<ContextMessage>, rendered: string, count: nat, total: nat,
                                status: Status, reason: string, cfg: Settings): ModelContext {
    var recent := Tail(full, cfg.keepRecent);
    var text := FittedSummary(env.digest, recent, rendered, cfg.maxTokens);
    var kept := Fitted(env.digest, recent, rendered, cfg.maxTokens);
    ModelContext(summary, kept, count, total, WindowTokens(text, kept), status, reason, text)
  }

  /** What a context starts from: its messages, counts, status and, if the summary is unchanged, its rendered text. */
  function Source(input: Input): seq<ContextMessage> {
    if input.Context? then input.context.recent else input.messages
  }

  function SummaryOf(input: Input, argument: SummaryArgument): Option<Summary> {
    match argument
    case Given(s) => Some(s)
    case Invalid => None
    case Absent => if input.Context? then Some(input.context.summary) else None
  }

  function Rendered(env: Env, input: Input, summary: Summary): string {
    if input.Context? && summary == input.context.summary then input.context.summaryText else env.render(summary)
  }

  function InheritedCount(input: Input): nat {
    if input.Context? then input.context.compressedCount else 0
  }

  function TotalCount(input: Input): nat {
    if input.Context? then Max(input.context.totalCount, |input.context.recent|) else |input.messages|
  }

  /** The summary the last-resort path keeps: a readable one, or the empty summary. */
  function SafeSummary(env: Env, input: Input, argument: SummaryArgument): Summary {
    match SummaryOf(input, argument)
    case Some(s) => s
    case None => env.emptySummary
  }

  /** The last-resort path, which renders its summary anew and condenses no tool results. */
  function SafeBounded(env: Env, input: Input, argument: SummaryArgument, cfg: Settings, reason: string): ModelContext {
    var source, summary := Source(input), SafeSummary(env, input, argument);
    var total := if input.Context? then input.context.totalCount else |source|;
    var c := CompressedContext(env, summary, source, env.render(summary), 0, total, Degraded, reason, cfg);
    c.(compressedCount := Max(InheritedCount(input), Max(0, total - |c.recent|)))
  }

  function Compress(env: Env, input: Input, argument: SummaryArgument, cfg: Settings): ModelContext
    requires cfg.Valid()
  {
    var source := Source(input);
    var inheritedCount := InheritedCount(input);
    var total := TotalCount(input);
    match SummaryOf(input, argument)
    case None => SafeBounded(env, Messages(source), Absent, cfg, "invalid_summary")
    case Some(summary) =>
      var full := Condensed(source, cfg.keepRecent);
      var compressed :=
        || |full| > cfg.keepRecent
        || Estimate(full) > cfg.maxTokens
        || (input.Context? && input.context.status.Applied?);
      var rendered := Rendered(env, input, summary);
      if !compressed && WindowTokens(rendered, full) <= cfg.maxTokens then
        ModelContext(summary, full, inheritedCount, total, WindowTokens(rendered, full), NotNeeded, "below_threshold", rendered)
      else
        CompressedContext(env, summary, full, rendered, Max(inheritedCount, Max(0, total - cfg.keepRecent)), total,
                          Applied, "threshold_exceeded", cfg)
  }

  /** A context handed in again was built with a non-empty summary text. */
  ghost predicate Sound(input: Input) {
    input.Context? ==> input.context.summaryText != ""
  }

  /** The messages the model gets. */
  function ModelMessages(c: ModelContext): seq<ContextMessage> {
    if c.summaryText == "" then c.recent
    else
      var first: ContextMessage := SummaryMessage(c.summaryText);
      [first] + c.recent
  }

  lemma MessagesTokens(c: ModelContext)
    requires c.summaryText != ""
    ensures Estimate(ModelMessages(c)) == WindowTokens(c.summaryText, c.recent)
  {
    var first: ContextMessage := SummaryMessage(c.summaryText);
    EstimateConcat([first], c.recent);
    assert Estimate([first]) == Cost(first);
  }

  /** The last-resort context, too, with whatever summary and input it is given. */
  lemma SafeBoundedFitsBudget(env: Env, input: Input, argument: SummaryArgument, cfg: Settings, reason: string)
    requires env.Valid() && cfg.Valid()
    ensures var c := SafeBounded(env, input, argument, cfg, reason);
      c.summaryText != "" && c.estimatedTokens == Estimate(ModelMessages(c)) <= cfg.maxTokens
  {
    WindowFits(env.digest, Tail(Source(input), cfg.keepRecent), env.render(SafeSummary(env, input, argument)), cfg.maxTokens);
    MessagesTokens(SafeBounded(env, input, argument, cfg, reason));
  }

  /** Every returned context costs at most its budget, and its estimate is that of its own model messages. */
  lemma CompressedFitsBudget(env: Env, input: Input, argument: SummaryArgument, cfg: Settings)
    requires env.Valid() && Sound(input) && cfg.Valid()
    ensures var c := Compress(env, input, argument, cfg);
      c.summaryText != "" && c.estimatedTokens == Estimate(ModelMessages(c)) <= cfg.maxTokens
  {
    var c := Compress(env, input, argument, cfg);
    var source := Source(input);
    match SummaryOf(input, argument)
    case None =>
      SafeBoundedFitsBudget(env, Messages(source), Absent, cfg, "invalid_summary");
    case Some(summary) =>
      var rendered := Rendered(env, input, summary);
      WindowFits(env.digest, Tail(Condensed(source, cfg.keepRecent), cfg.keepRecent), rendered, cfg.maxTokens);
      MessagesTokens(c);
  }

  /** The text a returned context's summary is fitted from. */
  function SummarySource(env: Env, input: Input, argument: SummaryArgument): string {
    match SummaryOf(input, argument)
    case None => env.render(env.emptySummary)
    case Some(summary) => Rendered(env, input, summary)
  }

  /**
   * Which messages a returned context holds: all of them below the threshold; otherwise a run of the
   * newest, or the newest alone and shortened. The newest message is never dropped, and it is shortened
   * exactly above the threshold if it is too long for the window beside its summary.
   */
  lemma CompressedKeepsNewest(env: Env, input: Input, argument: SummaryArgument, cfg: Settings)
    requires env.Valid() && Sound(input) && cfg.Valid()
    ensures var c := Compress(env, input, argument, cfg);
      var full := if SummaryOf(input, argument).None? then Source(input) else Condensed(Source(input), cfg.keepRecent);
      && (c.status.NotNeeded? ==> c.recent == full)
      && KeepsNewest(c.recent, full) && |c.recent| <= cfg.keepRecent
      && (full != [] ==>
            (Newest(c.recent) == Newest(full) <==>
             c.status.NotNeeded? || FitsVerbatim(Newest(full), SummarySource(env, input, argument), cfg.maxTokens)))
  {
    hide Condensed, Fitted, FittedSummary, Rendered, Estimate, WindowTokens, IsSuffix, FitsVerbatim;
    var source := Source(input);
    match SummaryOf(input, argument)
    case None =>
      TailWindowKeepsNewest(env.digest, source, env.render(env.emptySummary), cfg);
    case Some(summary) =>
      EndsAreSuffixes(Condensed(source, cfg.keepRecent));
      TailWindowKeepsNewest(env.digest, Condensed(source, cfg.keepRecent), Rendered(env, input, summary), cfg)
        by { assert Rendered(env, input, summary) != "" by { RenderedNonEmpty(env, input, summary); } }
  }

  /** The same for the last-resort context, which starts from the uncondensed messages. */
  lemma SafeBoundedKeepsNewest(env: Env, input: Input, argument: SummaryArgument, cfg: Settings, reason: string)
    requires env.Valid() && cfg.Valid()
    ensures var c := SafeBounded(env, input, argument, cfg, reason);
      var full := Source(input);
      && KeepsNewest(c.recent, full) && |c.recent| <= cfg.keepRecent
      && (full != [] ==>
            (Newest(c.recent) == Newest(full) <==>
             FitsVerbatim(Newest(full), env.render(SafeSummary(env, input, argument)), cfg.maxTokens)))
  {
    hide Fitted, FittedSummary, WindowTokens, IsSuffix, FitsVerbatim, KeepsNewest;
    TailWindowKeepsNewest(env.digest, Source(input), env.render(SafeSummary(env, input, argument)), cfg);
  }

  lemma RenderedNonEmpty(env: Env, input: Input, summary: Summary)
    requires env.Valid() && Sound(input)
    ensures Rendered(env, input, summary) != ""
  {
  }

  ghost predicate KeepsNewest(kept: seq<ContextMessage>, full: seq<ContextMessage>) {
    && (full == [] <==> kept == [])
    && (full != [] ==>
          && Newest(kept).role == Newest(full).role
          && (IsSuffix(kept, full) || (|kept| == 1 && |Newest(kept).content| < |Newest(full).content|)))
  }

  lemma TailWindowKeepsNewest(digest: Digest, full: seq<ContextMessage>, summary: string, cfg: Settings)
    requires cfg.Valid() && summary != ""
    ensures var kept := Fitted(digest, Tail(full, cfg.keepRecent), summary, cfg.maxTokens);
      && KeepsNewest(kept, full) && |kept| <= cfg.keepRecent
      && (full != [] ==> (Newest(kept) == Newest(full) <==> FitsVerbatim(Newest(full), summary, cfg.maxTokens)))
  {
    hide Fitted, Cost, IsSuffix, Tail, FitsVerbatim;
    var recent := Tail(full, cfg.keepRecent);
    var kept := Fitted(digest, recent, summary, cfg.maxTokens);
    WindowKeepsNewest(digest, recent, summary, cfg.maxTokens);
    TailFacts(kept, full, cfg.keepRecent);
  }

  lemma TailFacts(kept: seq<ContextMessage>, full: seq<ContextMessage>, count: nat)
    requires count >= 1
    ensures var recent := Tail(full, count);
      && |recent| <= count && (full == [] <==> recent == [])
      && (full != [] ==> Newest(recent) == Newest(full))
      && (IsSuffix(kept, recent) ==> IsSuffix(kept, full) && |kept| <= count)
      && (|full| <= count ==> recent == full)
  {
    var recent := Tail(full, count);
    if IsSuffix(kept, recent) {
      assert recent[|recent| - |kept|..] == full[|full| - |kept|..];
    }
  }

  function Min(x: int, y: int): int {
    if x <= y then x else y
  }

  /** The context keeps the last messages it may, up to the budget: one more would exceed it. */
  ghost predicate KeepsMost(c: ModelContext, full: seq<ContextMessage>, cfg: Settings) {
    || |c.recent| == Min(cfg.keepRecent, |full|)
    || (|c.recent| < Min(cfg.keepRecent, |full|)
        && c.estimatedTokens + Cost(full[|full| - |c.recent| - 1]) > cfg.maxTokens)
  }

  /** If the last messages fit beside the summary the context has, it keeps them all as they are. */
  ghost predicate KeepsAllThatFits(c: ModelContext, full: seq<ContextMessage>, cfg: Settings) {
    var last := full[|full| - Min(cfg.keepRecent, |full|)..];
    Cost(SummaryMessage(c.summaryText)) + Estimate(last) <= cfg.maxTokens ==> c.recent == last
  }

  lemma TailIsLast(full: seq<ContextMessage>, count: nat)
    ensures var n := Min(count, |full|); Tail(full, count) == full[|full| - n..]
  {
  }

  lemma ContextKeepsMost(env: Env, summary: Summary, full: seq<ContextMessage>, rendered: string, count: nat, total: nat,
                         status: Status, reason: string, cfg: Settings)
    requires cfg.Valid() && rendered != ""
    ensures var c := CompressedContext(env, summary, full, rendered, count, total, status, reason, cfg);
      KeepsMost(c, full, cfg) && KeepsAllThatFits(c, full, cfg)
  {
    var recent := Tail(full, cfg.keepRecent);
    TailIsLast(full, cfg.keepRecent);
    hide Cost, Estimate, FittedSummary, Fitted, Tail, LeavesNoRoom;
    var kept := Fitted(env.digest, recent, rendered, cfg.maxTokens);
    WindowIsMaximal(env.digest, recent, rendered, cfg.maxTokens);
    RoomBehindTail(kept, full, Min(cfg.keepRecent, |full|),
                   cfg.maxTokens - Cost(SummaryMessage(FittedSummary(env.digest, recent, rendered, cfg.maxTokens))));
    FittedIsShorter(env.digest, recent, rendered, cfg.maxTokens);
    if Cost(SummaryMessage(FittedSummary(env.digest, recent, rendered, cfg.maxTokens))) + Estimate(recent) <= cfg.maxTokens {
      FittedIsAll(env.digest, recent, rendered, cfg.maxTokens);
    }
  }

  lemma RoomBehindTail(kept: seq<ContextMessage>, full: seq<ContextMessage>, n: nat, budget: int)
    requires n <= |full| && LeavesNoRoom(kept, full[|full| - n..], budget)
    ensures |kept| < n ==> Estimate(kept) + Cost(full[|full| - |kept| - 1]) > budget
  {
    hide Cost, Estimate;
  }

  lemma FittedIsShorter(digest: Digest, recent: seq<ContextMessage>, summary: string, maxTokens: nat)
    ensures |Fitted(digest, recent, summary, maxTokens)| <= |recent|
  {
    KeepsNoMore(digest, recent, Remaining(FittedSummary(digest, recent, summary, maxTokens), maxTokens), false);
  }

  lemma FittedIsAll(digest: Digest, recent: seq<ContextMessage>, summary: string, maxTokens: nat)
    requires Cost(SummaryMessage(FittedSummary(digest, recent, summary, maxTokens))) + Estimate(recent) <= maxTokens
    ensures Fitted(digest, recent, summary, maxTokens) == recent
  {
    var left := Remaining(FittedSummary(digest, recent, summary, maxTokens), maxTokens);
    hide FittedSummary, Keep, Estimate, Cost;
    KeepAll(digest, recent, left, false);
  }

  lemma {:induction false} KeepsNoMore(digest: Digest, recent: seq<ContextMessage>, remaining: nat, keptAny: bool)
    ensures |Keep(digest, recent, remaining, keptAny)| <= |recent|
  {
    hide Cost, Truncated;
    if recent != [] {
      TruncatedShape(digest, Newest(recent), remaining);
      if Cost(Newest(recent)) <= remaining {
        KeepsNoMore(digest, recent[..|recent| - 1], remaining - Cost(Newest(recent)), true);
      }
    }
  }

  /**
   * Whenever compression gives more than the messages as they are, it keeps as many of the last `keepRecent`
   * messages as the budget allows.
   */
  lemma CompressedKeepsMost(env: Env, input: Input, argument: SummaryArgument, cfg: Settings)
    requires env.Valid() && Sound(input) && cfg.Valid()
    ensures var c := Compress(env, input, argument, cfg);
      var full := if SummaryOf(input, argument).None? then Source(input) else Condensed(Source(input), cfg.keepRecent);
      KeepsMost(c, full, cfg) && KeepsAllThatFits(c, full, cfg)
  {
    var source := Source(input);
    match SummaryOf(input, argument)
    case None =>
      SafeBoundedKeepsMost(env, Messages(source), Absent, cfg, "invalid_summary");
    case Some(summary) =>
      RenderedNonEmpty(env, input, summary);
      CompressReadable(env, input, argument, cfg, summary);
      hide Compress, Condensed, Rendered, CompressedContext, KeepsMost, KeepsAllThatFits, BelowThreshold;
      WholeKeepsMost(Compress(env, input, argument, cfg), cfg);
      ContextKeepsMost(env, summary, Condensed(source, cfg.keepRecent), Rendered(env, input, summary),
                       AppliedCount(input, cfg), TotalCount(input), Applied, "threshold_exceeded", cfg);
  }

  /** How many messages a compression counts as compressed. */
  function AppliedCount(input: Input, cfg: Settings): nat {
    Max(InheritedCount(input), Max(0, TotalCount(input) - cfg.keepRecent))
  }

  /** Nothing has to be compressed, nothing was, and everything fits. */
  ghost predicate BelowThreshold(env: Env, input: Input, summary: Summary, cfg: Settings)
    requires cfg.Valid()
  {
    && |Source(input)| <= cfg.keepRecent && !(input.Context? && input.context.status.Applied?)
    && WindowTokens(Rendered(env, input, summary), Condensed(Source(input), cfg.keepRecent)) <= cfg.maxTokens
  }

  lemma CompressReadable(env: Env, input: Input, argument: SummaryArgument, cfg: Settings, summary: Summary)
    requires cfg.Valid() && SummaryOf(input, argument) == Some(summary)
    ensures var c, full, rendered := Compress(env, input, argument, cfg), Condensed(Source(input), cfg.keepRecent), Rendered(env, input, summary);
      if BelowThreshold(env, input, summary, cfg) then
        && |full| <= cfg.keepRecent
        && c == ModelContext(summary, full, InheritedCount(input), TotalCount(input), WindowTokens(rendered, full),
                             NotNeeded, "below_threshold", rendered)
      else
        c == CompressedContext(env, summary, full, rendered, AppliedCount(input, cfg), TotalCount(input),
                               Applied, "threshold_exceeded", cfg)
  {
    CondensedLength(Source(input), cfg.keepRecent);
    WindowIncludesMessages(Rendered(env, input, summary), Condensed(Source(input), cfg.keepRecent));
    hide Condensed, Estimate, WindowTokens, Rendered, CompressedContext;
  }

  lemma SafeBoundedKeepsMost(env: Env, input: Input, argument: SummaryArgument, cfg: Settings, reason: string)
    requires env.Valid() && cfg.Valid()
    ensures var c := SafeBounded(env, input, argument, cfg, reason);
      && KeepsMost(c, Source(input), cfg) && KeepsAllThatFits(c, Source(input), cfg)
      && c.status.Degraded? && c.reason == reason
      && c.totalCount == (if input.Context? then input.context.totalCount else |input.messages|)
      && c.compressedCount >= InheritedCount(input) && c.compressedCount + |c.recent| >= c.totalCount
      && (c.compressedCount == InheritedCount(input) || c.compressedCount + |c.recent| == c.totalCount)
  {
    var summary := SafeSummary(env, input, argument);
    var total := if input.Context? then input.context.totalCount else |Source(input)|;
    hide Cost, Estimate, CompressedContext, KeepsMost, KeepsAllThatFits;
    ContextKeepsMost(env, summary, Source(input), env.render(summary), 0, total, Degraded, reason, cfg);
    SameWindow(CompressedContext(env, summary, Source(input), env.render(summary), 0, total, Degraded, reason, cfg),
               SafeBounded(env, input, argument, cfg, reason), Source(input), cfg);
  }

  /** What was kept does not depend on the counts. */
  lemma SameWindow(c: ModelContext, d: ModelContext, full: seq<ContextMessage>, cfg: Settings)
    requires c.recent == d.recent && c.estimatedTokens == d.estimatedTokens && c.summaryText == d.summaryText
    ensures KeepsMost(c, full, cfg) == KeepsMost(d, full, cfg) && KeepsAllThatFits(c, full, cfg) == KeepsAllThatFits(d, full, cfg)
  {
    hide Cost, Estimate;
  }

  /** Below the threshold everything is kept. */
  lemma WholeKeepsMost(c: ModelContext, cfg: Settings)
    ensures |c.recent| <= cfg.keepRecent ==> KeepsMost(c, c.recent, cfg) && KeepsAllThatFits(c, c.recent, cfg)
  {
    hide Cost, Estimate;
    assert c.recent[0..] == c.recent;
  }

  /**
   * When compression leaves the messages as they are: a readable summary, no more than `keepRecent` messages,
   * all of it within budget, and no earlier compression. What it counts: all messages ever seen, and those
   * beyond the recent ones as compressed, never fewer than before.
   */
  lemma CompressionStatus(env: Env, input: Input, argument: SummaryArgument, cfg: Settings)
    requires env.Valid() && Sound(input) && cfg.Valid()
    ensures var c := Compress(env, input, argument, cfg);
      && (c.status.Degraded? <==> SummaryOf(input, argument).None?)
      && (c.status.NotNeeded? <==>
            SummaryOf(input, argument).Some? && BelowThreshold(env, input, SummaryOf(input, argument).value, cfg))
      && (input.Messages? ==> c.totalCount == |input.messages|)
      && (input.Context? && !c.status.Degraded? ==> c.totalCount == Max(input.context.totalCount, |input.context.recent|))
      && (c.status.NotNeeded? ==> c.compressedCount == InheritedCount(input))
      && (c.status.Applied? ==> c.compressedCount == Max(InheritedCount(input), Max(0, c.totalCount - cfg.keepRecent)))
      && (c.status.Degraded? ==> c.compressedCount == |Source(input)| - |c.recent|)
  {
    match SummaryOf(input, argument)
    case None =>
      TailIsLast(Source(input), cfg.keepRecent);
      FittedIsShorter(env.digest, Tail(Source(input), cfg.keepRecent), env.render(env.emptySummary), cfg.maxTokens);
      hide Fitted, FittedSummary, WindowTokens, Tail;
    case Some(summary) =>
      CompressReadable(env, input, argument, cfg, summary);
      hide Compress, Fitted, FittedSummary, WindowTokens, Tail, Condensed, Rendered, BelowThreshold;
  }

  /** What makes an undegraded context a fixed point of compression. */
  ghost predicate Settled(c: ModelContext, cfg: Settings)
    requires cfg.Valid()
  {
    && c.summaryText != "" && |c.recent| <= cfg.keepRecent && |c.recent| <= c.totalCount
    && Condensed(c.recent, cfg.keepRecent) == c.recent
    && c.estimatedTokens == WindowTokens(c.summaryText, c.recent) <= cfg.maxTokens
    && Estimate(c.recent) <= cfg.maxTokens
    && (c.status.NotNeeded? ==> c.reason == "below_threshold")
    && (c.status.Applied? ==>
          c.reason == "threshold_exceeded" && c.compressedCount >= c.totalCount - cfg.keepRecent)
  }

  lemma SettledIsFixed(env: Env, c: ModelContext, cfg: Settings)
    requires cfg.Valid() && Settled(c, cfg) && !c.status.Degraded?
    ensures Compress(env, Context(c), Absent, cfg) == c
  {
    hide Condensed, Fitted, FittedSummary, Estimate, WindowTokens;
    TailFacts(c.recent, c.recent, cfg.keepRecent);
    if c.status.Applied? {
      FittingWindowIsFixed(env.digest, c.recent, c.summaryText, cfg.maxTokens);
    }
  }

  lemma CompressSettles(env: Env, input: Input, argument: SummaryArgument, cfg: Settings)
    requires env.Valid() && Sound(input) && cfg.Valid()
    ensures !Compress(env, input, argument, cfg).status.Degraded? ==> Settled(Compress(env, input, argument, cfg), cfg)
  {
    hide Condensed, Fitted, FittedSummary, Estimate, WindowTokens, KeepsNewest, ModelMessages, Tail;
    var c := Compress(env, input, argument, cfg);
    CompressedFitsBudget(env, input, argument, cfg);
    CompressedKeepsNewest(env, input, argument, cfg);
    MessagesTokens(c);
    WindowIncludesMessages(c.summaryText, c.recent);
    CondensedIsFixed(Source(input), cfg.keepRecent);
    CondensedIsFixed(c.recent, cfg.keepRecent);
    CondensedLength(Source(input), cfg.keepRecent);
    KeptNoLonger(c.recent, Condensed(Source(input), cfg.keepRecent));
  }

  lemma KeptNoLonger(kept: seq<ContextMessage>, full: seq<ContextMessage>)
    ensures KeepsNewest(kept, full) ==> |kept| <= |full|
  {
  }

  /**
   * Compressing a returned context again, with no new summary and the same settings, gives an equal context
   * in every field if and only if the context is not a degraded one.
   */
  lemma RecompressionIsIdentityIff(env: Env, input: Input, argument: SummaryArgument, cfg: Settings)
    requires env.Valid() && Sound(input) && cfg.Valid()
    ensures var c := Compress(env, input, argument, cfg);
      Compress(env, Context(c), Absent, cfg) == c <==> !c.status.Degraded?
  {
    hide Condensed, Fitted, FittedSummary, Estimate, WindowTokens, Settled;
    var c := Compress(env, input, argument, cfg);
    CompressSettles(env, input, argument, cfg);
    if !c.status.Degraded? {
      SettledIsFixed(env, c, cfg);
    } else {
      assert SummaryOf(Context(c), Absent) == Some(c.summary);
    }
  }

  /** The last-resort context is never a fixed point: compressing it again settles it. */
  lemma LastResortIsNotFixed(env: Env, input: Input, argument: SummaryArgument, cfg: Settings, reason: string)
    requires env.Valid() && cfg.Valid()
    ensures var c := SafeBounded(env, input, argument, cfg, reason);
      var again := Compress(env, Context(c), Absent, cfg);
      again != c && !again.status.Degraded? && Compress(env, Context(again), Absent, cfg) == again
  {
    var c := SafeBounded(env, input, argument, cfg, reason);
    SafeBoundedFitsBudget(env, input, argument, cfg, reason);
    assert SummaryOf(Context(c), Absent) == Some(c.summary);
    RecompressionIsIdentityIff(env, Context(c), Absent, cfg);
  }

  lemma WindowIncludesMessages(summary: string, recent: seq<ContextMessage>)
    ensures Estimate(recent) <= WindowTokens(summary, recent)
  {
  }

  lemma CondensedLength(messages: seq<ContextMessage>, keepRecent: nat)
    requires keepRecent >= 1
    ensures |Condensed(messages, keepRecent)| == |messages|
  {
  }
}
