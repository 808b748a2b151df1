/**
 When a cached message is replaced, does the new one reach the dispatchers? Two protobuf
 contents are compared by their text, and advertisements additionally by everything that
 does not change on a retry.
 */
module Duplicates {
  import opened Wrappers

  /** Context of an extended text: two volatile delays and the rest. */
  datatype ContextInfo = ContextInfo(conversionDelay: Option<nat>, entryPointDelay: Option<nat>, rest: string)

  datatype ExtendedText = ExtendedText(text: string, context: Option<ContextInfo>, rest: string)

  /** A protobuf message; deviceInfo is its volatile MessageContextInfo. */
  datatype Content = Content(
    extended: Option<ExtendedText>,
    conversation: string,
    deviceInfo: Option<string>,
    rest: string
  )

  /** How protobuf prints a message that has no text; the model works for any printer. */
  type Printer = Content -> string

  function TextOf(c: Content, printer: Printer): string {
    if c.extended.Some? then c.extended.value.text
    else if c.conversation != "" then c.conversation
    else printer(c)
  }

  /** The content without the fields that change on a retry. */
  function Stable(c: Content): Content
    requires c.extended.Some?
  {
    var e := c.extended.value;
    var context := if e.context.None? then None
                   else Some(e.context.value.(conversionDelay := None, entryPointDelay := None));
    c.(extended := Some(e.(context := context)), deviceInfo := None)
  }

  /** The new content repeats the previous one: the trigger is denied. */
  predicate Duplicate(previous: Content, next: Content, printer: Printer) {
    && TextOf(previous, printer) == TextOf(next, printer)
    && (previous.extended.Some? && next.extended.Some? ==> Stable(previous) == Stable(next))
  }

  /** Anything that is not a protobuf message counts as new. */
  predicate AllowsTrigger(previous: Option<Content>, next: Option<Content>, printer: Printer) {
    previous.None? || next.None? || !Duplicate(previous.value, next.value, printer)
  }

  lemma DuplicateIsSymmetric(a: Content, b: Content, printer: Printer)
    ensures Duplicate(a, a, printer)
    ensures Duplicate(a, b, printer) <==> Duplicate(b, a, printer)
  {
  }

  /** Transitivity fails only around a plain content between two advertisements that differ. */
  lemma TransitiveUnless(a: Content, b: Content, c: Content, printer: Printer)
    requires Duplicate(a, b, printer) && Duplicate(b, c, printer)
    ensures Duplicate(a, c, printer) <==>
            !(a.extended.Some? && b.extended.None? && c.extended.Some? && Stable(a) != Stable(c))
  {
  }

  /** A retry of an advertisement, which differs in its delays and its device info at most, is denied. */
  lemma RetryIsDuplicate(c: Content, e: ExtendedText, x: ContextInfo, conversionDelay: Option<nat>,
                         entryPointDelay: Option<nat>, deviceInfo: Option<string>, printer: Printer)
    requires c.extended == Some(e) && e.context == Some(x)
    ensures var y := ContextInfo(conversionDelay, entryPointDelay, x.rest);
      Duplicate(c, Content(Some(ExtendedText(e.text, Some(y), e.rest)), c.conversation, deviceInfo, c.rest), printer)
  {
  }

  /** Two extended texts are duplicates exactly if nothing else differs. */
  lemma ExtendedDuplicates(a: Content, b: Content, printer: Printer)
    requires a.extended.Some? && b.extended.Some?
    ensures var d, e := a.extended.value, b.extended.value;
      Duplicate(a, b, printer) <==>
        && d.text == e.text && d.rest == e.rest && a.conversation == b.conversation && a.rest == b.rest
        && (d.context.Some? <==> e.context.Some?)
        && (d.context.Some? ==> d.context.value.rest == e.context.value.rest)
  {
  }

  /** Of two plain contents only the texts count: the conversations, where there are any. */
  lemma PlainDuplicates(a: Content, b: Content, printer: Printer)
    requires a.extended.None? && b.extended.None?
    ensures a.conversation != "" && b.conversation != "" ==>
      (Duplicate(a, b, printer) <==> a.conversation == b.conversation)
    ensures a.conversation == "" && b.conversation == "" ==>
      (Duplicate(a, b, printer) <==> printer(a) == printer(b))
  {
  }

  predicate Uniform(cs: seq<Content>) {
    (forall c :: c in cs ==> c.extended.Some?) || (forall c :: c in cs ==> c.extended.None?)
  }

  /** The failing case exists for every printer. */
  lemma NotTransitive(printer: Printer)
    ensures exists a, b, c :: Duplicate(a, b, printer) && Duplicate(b, c, printer) && !Duplicate(a, c, printer)
  {
    var a := Content(Some(ExtendedText("hi", None, "first")), "", None, "");
    var b := Content(None, "hi", None, "");
    var c := Content(Some(ExtendedText("hi", None, "second")), "", None, "");
    assert Stable(a).extended.value.rest == "first" && Stable(c).extended.value.rest == "second";
    assert Duplicate(a, b, printer) && Duplicate(b, c, printer) && !Duplicate(a, c, printer);
  }

  // ------------------------------------------------------------------ one id over time

  /** The verdict on the i-th content of one id, which is stored over the one before it. */
  predicate Fires(cs: seq<Content>, i: nat, printer: Printer)
    requires i < |cs|
  {
    i == 0 || !Duplicate(cs[i - 1], cs[i], printer)
  }

  /** The last content at or before i that triggered. */
  function LastFired(cs: seq<Content>, i: nat, printer: Printer): (j: nat)
    requires i < |cs|
    ensures j <= i && Fires(cs, j, printer)
    ensures forall k :: j < k <= i ==> !Fires(cs, k, printer)
  {
    if Fires(cs, i, printer) then i else LastFired(cs, i - 1, printer)
  }

  lemma SameKind(cs: seq<Content>, i: nat, j: nat, k: nat, printer: Printer)
    requires Uniform(cs) && i < |cs| && j < |cs| && k < |cs|
    requires Duplicate(cs[i], cs[j], printer) && Duplicate(cs[j], cs[k], printer)
    ensures Duplicate(cs[i], cs[k], printer)
  {
    assert cs[i] in cs && cs[j] in cs && cs[k] in cs;
    TransitiveUnless(cs[i], cs[j], cs[k], printer);
  }

  lemma {:induction false} DuplicateSince(cs: seq<Content>, j: nat, i: nat, printer: Printer)
    requires j <= i < |cs| && Uniform(cs)
    requires forall k :: j < k <= i ==> !Fires(cs, k, printer)
    ensures Duplicate(cs[j], cs[i], printer)
    decreases i - j
  {
    if j < i {
      DuplicateSince(cs, j, i - 1, printer);
      assert !Fires(cs, i, printer);
      SameKind(cs, j, i - 1, i, printer);
    }
  }

  /** Among contents of one kind, a content is denied exactly when it repeats the content that
      was triggered last, although the cache has been overwritten by denied ones in between. */
  lemma TriggersAreStutterFree(cs: seq<Content>, i: nat, printer: Printer)
    requires Uniform(cs) && 0 < i < |cs|
    ensures Fires(cs, i, printer) <==> !Duplicate(cs[LastFired(cs, i - 1, printer)], cs[i], printer)
  {
    var j := LastFired(cs, i - 1, printer);
    DuplicateSince(cs, j, i - 1, printer);
    DuplicateIsSymmetric(cs[j], cs[i - 1], printer);
    if Duplicate(cs[j], cs[i], printer) {
      SameKind(cs, i - 1, j, i, printer);
    }
    if Duplicate(cs[i - 1], cs[i], printer) {
      SameKind(cs, j, i - 1, i, printer);
    }
  }
}
