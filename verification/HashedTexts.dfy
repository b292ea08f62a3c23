/** What stands in the texts that are hashed, as a reader of JSON finds it: every field under its own name. */
module HashedTexts {
  import opened Wrappers
  import opened Texts
  import opened KeyedSort
  import opened Json
  import opened CanonicalJson
  import opened JsonReader
  import opened Bindings
  import opened ExecutionProposals

  /** The members of the object that a text is, if it is one from beginning to end. */
  function ObjectIn(t: Text): Option<seq<Keyed<Json>>> {
    var r := ReadValue(t);
    if r.Got? && r.rest == [] && r.value.Obj? then Some(r.value.fields) else None
  }

  predicate Has(members: seq<Keyed<Json>>, key: string, v: Json) {
    Keyed(Ascii(key), v) in members
  }

  ghost predicate StandIn(f: seq<Keyed<Json>>, members: seq<Keyed<Json>>) {
    |members| == |f| && forall i :: 0 <= i < |f| ==> f[i] in members
  }

  ghost predicate ReadsAs(t: Text, f: seq<Keyed<Json>>) {
    ObjectIn(t).Some? && StandIn(f, ObjectIn(t).value)
  }

  /** An object that holds nothing that printing loses, and nothing to be sorted inside, reads back with all its members. */
  lemma ObjectReads(f: seq<Keyed<Json>>)
    requires WellFormed(Obj(f)) && forall i :: 0 <= i < |f| ==> Canon(f[i].val) == f[i].val
    ensures ReadsAs(Print(Obj(f)), f)
  {
    PrintReadsBack(Obj(f));
    CanonOfObject(f);
    ObjectThatIsRead(Print(Obj(f)), Sort(f));
    SortStandsIn(f);
  }

  lemma CanonOfObject(f: seq<Keyed<Json>>)
    requires forall i :: 0 <= i < |f| ==> Canon(f[i].val) == f[i].val
    ensures Canon(Obj(f)) == Obj(Sort(f))
  {
    ItselfFields(f);
  }

  lemma ObjectThatIsRead(t: Text, members: seq<Keyed<Json>>)
    requires ReadValue(t) == Got(Obj(members), [])
    ensures ObjectIn(t) == Some(members)
  {
  }

  lemma SortStandsIn(f: seq<Keyed<Json>>)
    ensures StandIn(f, Sort(f))
  {
    SortMembers(f);
  }

  lemma ScalarSettled(f: seq<Keyed<Json>>)
    requires forall i :: 0 <= i < |f| ==> Scalar(f[i].val) && Plain(f[i].val)
    ensures forall i :: 0 <= i < |f| ==> Canon(f[i].val) == f[i].val
  {
  }

  lemma AuthorityReads(a: Authority)
    ensures ReadsAs(AuthorityText(a), AuthorityFields(a))
  {
    AuthorityFieldsSound(a);
    ScalarSettled(AuthorityFields(a));
    ObjectReads(AuthorityFields(a));
  }

  lemma ContentReads(c: Content)
    ensures ReadsAs(ContentText(c), ContentFields(c))
  {
    ContentFieldsSound(c);
    ArgsAsTheyAre(c.args);
    var f := ContentFields(c);
    forall i | 0 <= i < |f| ensures Canon(f[i].val) == f[i].val {
    }
    ObjectReads(f);
  }

  /** The text behind a binding hash is an object with these twelve members and no other. */
  lemma AuthorityTextReads(a: Authority)
    ensures var m := ObjectIn(AuthorityText(a));
            && m.Some? && |m.value| == 12
            && Has(m.value, "goalId", Str(a.goalId)) && Has(m.value, "planId", Str(a.planId))
            && Has(m.value, "parentPlanId", if a.parentPlanId.Some? then Str(a.parentPlanId.value) else Undefined)
            && Has(m.value, "reasoningEndpointId", Str(a.reasoningEndpointId))
            && Has(m.value, "executionEndpointId", Str(a.executionEndpointId))
            && Has(m.value, "reasoningTier", Str(a.reasoningTier)) && Has(m.value, "executionTier", Str(a.executionTier))
            && Has(m.value, "executionPermissionProfile", Str(a.executionPermissionProfile))
            && Has(m.value, "executionWorkingDirectoryRef", Str(a.executionWorkingDirectoryRef))
            && Has(m.value, "maxSteps", Num(a.maxSteps)) && Has(m.value, "maxReasoningRounds", Num(a.maxReasoningRounds))
            && Has(m.value, "deadlineAt", Str(a.deadlineAt))
  {
    AuthorityReads(a);
    var f, m := AuthorityFields(a), ObjectIn(AuthorityText(a)).value;
    assert f[0] in m && f[1] in m && f[2] in m && f[3] in m && f[4] in m && f[5] in m;
    assert f[6] in m && f[7] in m && f[8] in m && f[9] in m && f[10] in m && f[11] in m;
  }

  /** The text behind a content hash is an object with these six members and no other. */
  lemma ContentTextReads(c: Content)
    ensures var m := ObjectIn(ContentText(c));
            && m.Some? && |m.value| == 6
            && Has(m.value, "artifactId", Str(c.artifactId)) && Has(m.value, "artifactContentHash", Str(c.artifactContentHash))
            && Has(m.value, "preview", Str(c.preview)) && Has(m.value, "command", Str(c.command))
            && HasTexts(m.value, "args", c.args)
            && Has(m.value, "stdin", Str(c.stdin))
  {
    ContentReads(c);
    var f, m := ContentFields(c), ObjectIn(ContentText(c)).value;
    assert f[0] in m && f[1] in m && f[2] in m && f[3] in m && f[4] in m && f[5] in m;
    assert f[4] == Keyed(Ascii("args"), Arr(TextItems(c.args))) && AreTexts(TextItems(c.args), c.args);
  }

  predicate AreTexts(items: seq<Json>, texts: seq<Text>) {
    |items| == |texts| && forall i :: 0 <= i < |items| ==> items[i] == Str(texts[i])
  }

  ghost predicate HasTexts(members: seq<Keyed<Json>>, key: string, texts: seq<Text>) {
    exists items :: Keyed(Ascii(key), Arr(items)) in members && AreTexts(items, texts)
  }

  lemma ArgsAsTheyAre(args: seq<Text>)
    ensures Canon(Arr(TextItems(args))) == Arr(TextItems(args))
  {
    assert !LoneUndefined(TextItems(args));
    assert CanonItems(TextItems(args)) == TextItems(args);
  }
}
