/** Diagnostics: the four-field error value, its builder, and its rendering. */
module Diagnostics {
  import opened Wrappers

  const UNKNOWN_ERR_TYPE := "unknown error type"
  const UNKNOWN_CONTEXT := "unknown context"
  const UNKNOWN_WHY := "unknown reason"
  const UNKNOWN_SUGGESTION := "no suggestions, contact author for help"

  /** A diagnostic: a machine-readable kind, what was being attempted, the cause, and a remedy. */
  datatype Whoops = Whoops(errType: string, context: string, why: string, suggestion: string)
  {
    /** `augment_context`: prefixes the context with `extra` and a comma; the other three
        fields are kept. */
    function AugmentContext(extra: string): (w: Whoops)
      ensures w.errType == errType && w.why == why && w.suggestion == suggestion
      ensures |w.context| == |extra| + 2 + |context|
      ensures w.context[..|extra|] == extra && w.context[|extra|..|extra| + 2] == ", "
      ensures w.context[|extra| + 2..] == context
    {
      this.(context := extra + ", " + context)
    }

    /** The text `Display` writes: a banner, then the four fields, each after its label, then
        a closing rule. `DisplayFieldOrder` places the two middle fields. */
    function Display(): (d: string)
      ensures BANNER + errType + CONTEXT_LABEL <= d
      ensures |d| >= |suggestion| + |FOOTER| && d[|d| - |suggestion| - |FOOTER|..] == suggestion + FOOTER
    {
      BANNER + errType + CONTEXT_LABEL + context + WHY_LABEL + why + SUGGESTION_LABEL + suggestion + FOOTER
    }
  }

  const BANNER := "\n--- ERROR ---\n\nError Type: "
  const CONTEXT_LABEL := "\n\nContext: "
  const WHY_LABEL := "\n\nWhy: "
  const SUGGESTION_LABEL := "\n\nSuggestion: "
  const FOOTER := "\n\n-------------\n\n"

  /** Where each field starts in `w.Display()`. */
  function ContextStart(w: Whoops): nat { |BANNER| + |w.errType| + |CONTEXT_LABEL| }
  function WhyStart(w: Whoops): nat { ContextStart(w) + |w.context| + |WHY_LABEL| }
  function SuggestionStart(w: Whoops): nat { WhyStart(w) + |w.why| + |SUGGESTION_LABEL| }

  /** `Display` shows err_type, context, why and suggestion verbatim, in that order, each
      after its own label and none overlapping the next. */
  lemma DisplayFieldOrder(w: Whoops)
    ensures var d, e := w.Display(), |BANNER|;
      && e + |w.errType| < ContextStart(w)
      && ContextStart(w) + |w.context| < WhyStart(w)
      && WhyStart(w) + |w.why| < SuggestionStart(w)
      && SuggestionStart(w) + |w.suggestion| < |d|
      && d[e..e + |w.errType|] == w.errType
      && d[ContextStart(w)..ContextStart(w) + |w.context|] == w.context
      && d[WhyStart(w)..WhyStart(w) + |w.why|] == w.why
      && d[SuggestionStart(w)..SuggestionStart(w) + |w.suggestion|] == w.suggestion
      && d[ContextStart(w) - |CONTEXT_LABEL|..ContextStart(w)] == CONTEXT_LABEL
      && d[WhyStart(w) - |WHY_LABEL|..WhyStart(w)] == WHY_LABEL
      && d[SuggestionStart(w) - |SUGGESTION_LABEL|..SuggestionStart(w)] == SUGGESTION_LABEL
  {
    var d := w.Display();
    var s1 := BANNER + w.errType + CONTEXT_LABEL;
    var s2 := s1 + w.context + WHY_LABEL;
    var s3 := s2 + w.why + SUGGESTION_LABEL;
    assert d == s3 + w.suggestion + FOOTER;
    assert |s1| == ContextStart(w) && |s2| == WhyStart(w) && |s3| == SuggestionStart(w);
    assert d[..|s1|] == s1;
    assert d[..|s2|] == s2;
    assert d[..|s3|] == s3;
    assert s1[|BANNER|..|BANNER| + |w.errType|] == w.errType;
    assert s2[|s1|..|s1| + |w.context|] == w.context;
    assert s3[|s2|..|s2| + |w.why|] == w.why;
    assert d[|s3|..|s3| + |w.suggestion|] == w.suggestion;
  }

  /** A diagnostic under construction: fields not yet given are absent. */
  datatype WhoopsBuilder = WhoopsBuilder(
    errType: Option<string>,
    context: Option<string>,
    why: Option<string>,
    suggestion: Option<string>)
  {
    /** `WhoopsBuilder::new()`: nothing given yet. */
    static function New(): (b: WhoopsBuilder)
      ensures b.errType.None? && b.context.None? && b.why.None? && b.suggestion.None?
    {
      WhoopsBuilder(None, None, None, None)
    }

    function WithErrType(e: string): (b: WhoopsBuilder)
      ensures b == WhoopsBuilder(Some(e), context, why, suggestion)
    {
      this.(errType := Some(e))
    }

    function WithContext(c: string): (b: WhoopsBuilder)
      ensures b == WhoopsBuilder(errType, Some(c), why, suggestion)
    {
      this.(context := Some(c))
    }

    function WithWhy(y: string): (b: WhoopsBuilder)
      ensures b == WhoopsBuilder(errType, context, Some(y), suggestion)
    {
      this.(why := Some(y))
    }

    function WithSuggestion(s: string): (b: WhoopsBuilder)
      ensures b == WhoopsBuilder(errType, context, why, Some(s))
    {
      this.(suggestion := Some(s))
    }

    /** `build`: each given field verbatim, each missing one replaced by its placeholder. */
    function Build(): (w: Whoops)
      ensures errType.Some? ==> w.errType == errType.value
      ensures errType.None? ==> w.errType == UNKNOWN_ERR_TYPE
      ensures context.Some? ==> w.context == context.value
      ensures context.None? ==> w.context == UNKNOWN_CONTEXT
      ensures why.Some? ==> w.why == why.value
      ensures why.None? ==> w.why == UNKNOWN_WHY
      ensures suggestion.Some? ==> w.suggestion == suggestion.value
      ensures suggestion.None? ==> w.suggestion == UNKNOWN_SUGGESTION
    {
      Whoops(
        errType.GetOr(UNKNOWN_ERR_TYPE),
        context.GetOr(UNKNOWN_CONTEXT),
        why.GetOr(UNKNOWN_WHY),
        suggestion.GetOr(UNKNOWN_SUGGESTION))
    }
  }

  /** A builder nobody set anything on builds the all-placeholder diagnostic. */
  lemma BuildNothingSet()
    ensures WhoopsBuilder.New().Build()
         == Whoops(UNKNOWN_ERR_TYPE, UNKNOWN_CONTEXT, UNKNOWN_WHY, UNKNOWN_SUGGESTION)
  {
  }

  /** Setting all four fields, in any builder state, builds exactly those four values. */
  lemma BuildAllSet(b: WhoopsBuilder, e: string, c: string, y: string, s: string)
    ensures b.WithErrType(e).WithContext(c).WithWhy(y).WithSuggestion(s).Build() == Whoops(e, c, y, s)
  {
  }

  /** Setting a field twice keeps the later value. */
  lemma LastSetWins(b: WhoopsBuilder, x: string, y: string)
    ensures b.WithErrType(x).WithErrType(y) == b.WithErrType(y)
    ensures b.WithContext(x).WithContext(y) == b.WithContext(y)
    ensures b.WithWhy(x).WithWhy(y) == b.WithWhy(y)
    ensures b.WithSuggestion(x).WithSuggestion(y) == b.WithSuggestion(y)
  {
  }

  /** Setters of different fields do not interfere, so the order of the calls does not matter. */
  lemma SettersCommute(b: WhoopsBuilder, x: string, y: string)
    ensures b.WithErrType(x).WithContext(y) == b.WithContext(y).WithErrType(x)
    ensures b.WithErrType(x).WithWhy(y) == b.WithWhy(y).WithErrType(x)
    ensures b.WithErrType(x).WithSuggestion(y) == b.WithSuggestion(y).WithErrType(x)
    ensures b.WithContext(x).WithWhy(y) == b.WithWhy(y).WithContext(x)
    ensures b.WithContext(x).WithSuggestion(y) == b.WithSuggestion(y).WithContext(x)
    ensures b.WithWhy(x).WithSuggestion(y) == b.WithSuggestion(y).WithWhy(x)
  {
  }

  /** Augmenting twice stacks the newer text in front: the original context stays at the end. */
  lemma AugmentTwice(w: Whoops, a: string, b: string)
    ensures w.AugmentContext(a).AugmentContext(b).context == b + ", " + a + ", " + w.context
    ensures w.AugmentContext(a).AugmentContext(b).errType == w.errType
  {
  }
}
