/** Reasoning artifacts: screening for authority fields, and what an artifact id identifies. */
module ReasoningArtifacts {
  import opened Wrappers
  import opened Texts
  import opened KeyedSort
  import opened Json
  import opened CanonicalJson
  import opened Bindings

  const DEFAULT_MAX_CONTENT_BYTES := 64 * 1024
  const MAX_SUMMARY_LENGTH := 500

  const FORBIDDEN_AUTHORITY_FIELDS: seq<Text> := [
    Ascii("executor"), Ascii("executorId"), Ascii("executionEndpointId"), Ascii("permissionProfile"),
    Ascii("executionPermissionProfile"), Ascii("workingDirectory"), Ascii("workingDirectoryRef"), Ascii("cwd"),
    Ascii("approval"), Ascii("approved"), Ascii("confirmed"), Ascii("executable"), Ascii("argv"), Ascii("args"),
    Ascii("command")]

  // ---- Screening the content ----

  /** The first forbidden key met in a depth-first walk. */
  function ForbiddenField(v: Json): Option<Text>
    decreases v, 1
  {
    match v
    case Arr(items) => ForbiddenInItems(items)
    case Obj(fields) => ForbiddenInFields(fields)
    case _ => None
  }

  function ForbiddenInItems(items: seq<Json>): Option<Text>
    decreases items, 0
  {
    if items == [] then None
    else
      var found := ForbiddenField(items[0]);
      if found.Some? then found else ForbiddenInItems(items[1..])
  }

  function ForbiddenInFields(fields: seq<Keyed<Json>>): Option<Text>
    decreases fields, 0
  {
    if fields == [] then None
    else if fields[0].key in FORBIDDEN_AUTHORITY_FIELDS then Some(fields[0].key)
    else
      var found := ForbiddenField(fields[0].val);
      if found.Some? then found else ForbiddenInFields(fields[1..])
  }

  /** The key occurs in the value, at some depth. */
  ghost predicate Mentions(v: Json, key: Text)
    decreases v, 1
  {
    match v
    case Arr(items) => exists i :: 0 <= i < |items| && Mentions(items[i], key)
    case Obj(fields) => exists i :: 0 <= i < |fields| && FieldMentions(fields[i], key)
    case _ => false
  }

  ghost predicate FieldMentions(f: Keyed<Json>, key: Text)
    decreases f, 0
  {
    f.key == key || Mentions(f.val, key)
  }

  ghost predicate MentionsForbidden(v: Json) {
    exists key :: key in FORBIDDEN_AUTHORITY_FIELDS && Mentions(v, key)
  }

  lemma {:induction false} ForbiddenFound(v: Json)
    ensures ForbiddenField(v).Some? ==> ForbiddenField(v).value in FORBIDDEN_AUTHORITY_FIELDS && Mentions(v, ForbiddenField(v).value)
    ensures forall key :: key in FORBIDDEN_AUTHORITY_FIELDS && Mentions(v, key) ==> ForbiddenField(v).Some?
    decreases v, 1
  {
    match v
    case Arr(items) => ForbiddenFoundItems(items);
    case Obj(fields) => ForbiddenFoundFields(fields);
    case _ =>
  }

  lemma {:induction false} ForbiddenFoundItems(items: seq<Json>)
    ensures var f := ForbiddenInItems(items);
            && (f.Some? ==> f.value in FORBIDDEN_AUTHORITY_FIELDS && exists i :: 0 <= i < |items| && Mentions(items[i], f.value))
            && (f.None? ==> forall i, key :: 0 <= i < |items| && Mentions(items[i], key) ==> key !in FORBIDDEN_AUTHORITY_FIELDS)
    decreases items, 0
  {
    if items != [] {
      ForbiddenFound(items[0]);
      ForbiddenFoundItems(items[1..]);
      assert items == [items[0]] + items[1..];
      var f := ForbiddenInItems(items[1..]);
      if ForbiddenField(items[0]).None? && f.Some? {
        var i :| 0 <= i < |items[1..]| && Mentions(items[1..][i], f.value);
        assert Mentions(items[i + 1], f.value);
      }
    }
  }

  lemma {:induction false} ForbiddenFoundFields(fields: seq<Keyed<Json>>)
    ensures var f := ForbiddenInFields(fields);
            && (f.Some? ==> f.value in FORBIDDEN_AUTHORITY_FIELDS
                            && exists i :: 0 <= i < |fields| && FieldMentions(fields[i], f.value))
            && (f.None? ==> forall i, key :: 0 <= i < |fields| && FieldMentions(fields[i], key) ==>
                              key !in FORBIDDEN_AUTHORITY_FIELDS)
    decreases fields, 0
  {
    if fields != [] {
      ForbiddenFound(fields[0].val);
      ForbiddenFoundFields(fields[1..]);
      assert fields == [fields[0]] + fields[1..];
      var f := ForbiddenInFields(fields[1..]);
      if fields[0].key !in FORBIDDEN_AUTHORITY_FIELDS && ForbiddenField(fields[0].val).None? && f.Some? {
        var i :| 0 <= i < |fields[1..]| && FieldMentions(fields[1..][i], f.value);
        assert FieldMentions(fields[i + 1], f.value);
      }
    }
  }

  // The keys of a value in the order in which a depth-first walk meets them.
  function Walk(v: Json): seq<Text>
    decreases v, 1
  {
    match v
    case Arr(items) => WalkItems(items)
    case Obj(fields) => WalkFields(fields)
    case _ => []
  }

  function WalkItems(items: seq<Json>): seq<Text>
    decreases items, 0
  {
    if items == [] then [] else Walk(items[0]) + WalkItems(items[1..])
  }

  function WalkFields(fields: seq<Keyed<Json>>): seq<Text>
    decreases fields, 0
  {
    if fields == [] then [] else [fields[0].key] + Walk(fields[0].val) + WalkFields(fields[1..])
  }

  /** The first of the keys that is forbidden. */
  ghost predicate FirstForbidden(keys: seq<Text>, found: Option<Text>) {
    if found.None? then forall k :: 0 <= k < |keys| ==> keys[k] !in FORBIDDEN_AUTHORITY_FIELDS
    else exists k :: 0 <= k < |keys| && keys[k] == found.value && keys[k] in FORBIDDEN_AUTHORITY_FIELDS
                     && forall j :: 0 <= j < k ==> keys[j] !in FORBIDDEN_AUTHORITY_FIELDS
  }

  lemma FirstInEither(a: seq<Text>, b: seq<Text>, x: Option<Text>, y: Option<Text>)
    requires FirstForbidden(a, x) && FirstForbidden(b, y)
    ensures FirstForbidden(a + b, if x.Some? then x else y)
  {
    if x.Some? {
      var k :| 0 <= k < |a| && a[k] == x.value && a[k] in FORBIDDEN_AUTHORITY_FIELDS
               && forall j :: 0 <= j < k ==> a[j] !in FORBIDDEN_AUTHORITY_FIELDS;
      assert (a + b)[k] == x.value;
    } else if y.Some? {
      var k :| 0 <= k < |b| && b[k] == y.value && b[k] in FORBIDDEN_AUTHORITY_FIELDS
               && forall j :: 0 <= j < k ==> b[j] !in FORBIDDEN_AUTHORITY_FIELDS;
      assert (a + b)[|a| + k] == y.value;
    }
  }

  /** The key that is named is the first forbidden one of the walk. */
  lemma {:induction false} FirstOfWalk(v: Json)
    ensures FirstForbidden(Walk(v), ForbiddenField(v))
    decreases v, 1
  {
    match v
    case Arr(items) => FirstOfItems(items);
    case Obj(fields) => FirstOfFields(fields);
    case _ =>
  }

  lemma {:induction false} FirstOfItems(items: seq<Json>)
    ensures FirstForbidden(WalkItems(items), ForbiddenInItems(items))
    decreases items, 0
  {
    if items != [] {
      FirstOfWalk(items[0]);
      FirstOfItems(items[1..]);
      FirstInEither(Walk(items[0]), WalkItems(items[1..]), ForbiddenField(items[0]), ForbiddenInItems(items[1..]));
    }
  }

  lemma {:induction false} FirstOfFields(fields: seq<Keyed<Json>>)
    ensures FirstForbidden(WalkFields(fields), ForbiddenInFields(fields))
    decreases fields, 0
  {
    if fields != [] {
      var key, v, rest := fields[0].key, fields[0].val, fields[1..];
      var own := if key in FORBIDDEN_AUTHORITY_FIELDS then Some(key) else None;
      FirstOfWalk(v);
      FirstOfFields(rest);
      OneKey(key);
      FirstInEither([key], Walk(v), own, ForbiddenField(v));
      FirstInEither([key] + Walk(v), WalkFields(rest), if own.Some? then own else ForbiddenField(v), ForbiddenInFields(rest));
    }
  }

  lemma OneKey(key: Text)
    ensures FirstForbidden([key], if key in FORBIDDEN_AUTHORITY_FIELDS then Some(key) else None)
  {
    assert [key][0] == key;
  }

  ghost predicate MentionsAlike(v: Json, key: Text) {
    Mentions(Canon(v), key) <==> Mentions(v, key)
  }

  /** The canonical tree mentions the same keys. */
  lemma {:induction false} MentionsCanon(v: Json, key: Text)
    ensures MentionsAlike(v, key)
  {
    match v
    case Arr(items) =>
      forall i | 0 <= i < |items| ensures MentionsAlike(items[i], key) {
        MentionsCanon(items[i], key);
      }
      ItemsAlike(items, key);
    case Obj(fields) =>
      forall i | 0 <= i < |fields| ensures MentionsAlike(fields[i].val, key) {
        MentionsCanon(fields[i].val, key);
      }
      FieldsAlike(fields, key);
      MentionsSorted(CanonFields(fields), key);
    case _ =>
  }

  lemma ItemsAlike(items: seq<Json>, key: Text)
    requires forall i :: 0 <= i < |items| ==> MentionsAlike(items[i], key)
    ensures MentionsAlike(Arr(items), key)
  {
    if LoneUndefined(items) {
      LoneAlike(items, key);
    } else {
      SameCanonItems(items, key);
      ElementsAlike(CanonItems(items), items, key);
    }
  }

  lemma LoneAlike(items: seq<Json>, key: Text)
    requires LoneUndefined(items)
    ensures MentionsAlike(Arr(items), key)
  {
    assert !Mentions(items[0], key);
  }

  // The two mention the key, or neither does.
  ghost predicate BothMention(v: Json, u: Json, key: Text) {
    Mentions(v, key) <==> Mentions(u, key)
  }

  lemma SameCanonItems(items: seq<Json>, key: Text)
    requires forall i :: 0 <= i < |items| ==> MentionsAlike(items[i], key)
    ensures forall i :: 0 <= i < |items| ==> BothMention(CanonItems(items)[i], items[i], key)
  {
    forall i | 0 <= i < |items| ensures BothMention(CanonItems(items)[i], items[i], key) {
      assert MentionsAlike(items[i], key);
    }
  }

  lemma ElementsAlike(a: seq<Json>, b: seq<Json>, key: Text)
    requires |a| == |b| && forall i :: 0 <= i < |a| ==> BothMention(a[i], b[i], key)
    ensures Mentions(Arr(a), key) <==> Mentions(Arr(b), key)
  {
    if i :| 0 <= i < |a| && Mentions(a[i], key) {
      assert BothMention(a[i], b[i], key);
    }
    if i :| 0 <= i < |b| && Mentions(b[i], key) {
      assert BothMention(a[i], b[i], key);
    }
  }

  lemma FieldsAlike(fields: seq<Keyed<Json>>, key: Text)
    requires forall i :: 0 <= i < |fields| ==> MentionsAlike(fields[i].val, key)
    ensures Mentions(Obj(CanonFields(fields)), key) <==> Mentions(Obj(fields), key)
  {
    forall i | 0 <= i < |fields| ensures FieldMentions(CanonFields(fields)[i], key) <==> FieldMentions(fields[i], key) {
      assert MentionsAlike(fields[i].val, key);
    }
  }

  lemma MentionsSorted(c: seq<Keyed<Json>>, key: Text)
    ensures Mentions(Obj(Sort(c)), key) <==> Mentions(Obj(c), key)
  {
    SortMembers(c);
    if Mentions(Obj(c), key) { MentionsWithin(c, Sort(c), key); }
    if Mentions(Obj(Sort(c)), key) { MentionsWithin(Sort(c), c, key); }
  }

  lemma MentionsWithin(c: seq<Keyed<Json>>, d: seq<Keyed<Json>>, key: Text)
    requires forall i :: 0 <= i < |c| ==> c[i] in d
    requires Mentions(Obj(c), key)
    ensures Mentions(Obj(d), key)
  {
    var i :| 0 <= i < |c| && FieldMentions(c[i], key);
    var j :| 0 <= j < |d| && d[j] == c[i];
    assert FieldMentions(d[j], key);
  }

  /** The screening verdict depends only on the text that is hashed: contents that print alike are both
      clean or both rejected. */
  lemma ScreeningFollowsText(a: Json, b: Json)
    requires WellFormed(a) && WellFormed(b) && Print(a) == Print(b)
    ensures ForbiddenField(a).Some? <==> ForbiddenField(b).Some?
    ensures ForbiddenField(a).Some? <==> MentionsForbidden(a)
  {
    PrintDecodable(a, b);
    ForbiddenFound(a);
    ForbiddenFound(b);
    forall key ensures Mentions(a, key) <==> Mentions(b, key) {
      MentionsCanon(a, key);
      MentionsCanon(b, key);
    }
  }

  // ---- Normalising an artifact ----

  datatype NormalizeInput = NormalizeInput(
    binding: Binding,
    planId: Text,
    planGoalId: Text,
    endpointId: Text,
    kind: Text,
    content: Json,
    summary: Text,
    createdAt: Text,
    artifactId: Option<Text>,
    maxContentBytes: Option<int>)

  datatype Artifact = Artifact(
    artifactId: Text,
    goalId: Text,
    planId: Text,
    endpointId: Text,
    bindingHash: Text,
    kind: Text,
    contentHash: Text,
    summary: Text,
    createdAt: Text)

  /** An artifact, a failure reason, or an exception (printing `undefined` gives no text to measure). */
  datatype Normalized = Accepted(artifact: Artifact) | Rejected(failureReason: Text) | Thrown

  /** The digest, the UTF-8 length of a text, and the strings `Date.parse` accepts. */
  datatype Platform = Platform(hash: Text -> Text, utf8Length: Text -> nat, isDate: Text -> bool)

  predicate KnownKind(kind: Text) {
    kind == Ascii("plan-draft") || kind == Ascii("review-result") || kind == Ascii("execution-proposal")
  }

  function CorrelationFailure(input: NormalizeInput): Option<Text> {
    if input.binding.lockedAt.None? then Some(Ascii("binding-not-locked"))
    else if input.planId != input.binding.planId || input.planGoalId != input.binding.goalId then Some(Ascii("plan-binding-mismatch"))
    else if input.endpointId != input.binding.reasoningEndpointId then Some(Ascii("reasoning-endpoint-mismatch"))
    else if !KnownKind(input.kind) then Some(Ascii("reasoning-artifact-kind-invalid"))
    else None
  }

  const BAR: CodeUnit := 124

  function ContentHash(p: Platform, content: Json): Text {
    Sha256(p.hash, Print(content))
  }

  function IdParts(p: Platform, input: NormalizeInput): seq<Text> {
    [input.binding.bindingHash, input.binding.goalId, input.binding.planId, input.endpointId, input.kind,
     ContentHash(p, input.content)]
  }

  function Normalize(p: Platform, input: NormalizeInput): Normalized {
    var correlation := CorrelationFailure(input);
    var summary := Trim(input.summary);
    if correlation.Some? then Rejected(correlation.value)
    else if |summary| == 0 || |summary| > MAX_SUMMARY_LENGTH then Rejected(Ascii("summary-invalid"))
    else if input.content.Undefined? then Thrown
    else if p.utf8Length(Print(input.content)) > OrElse(input.maxContentBytes, DEFAULT_MAX_CONTENT_BYTES) then
      Rejected(Ascii("content-too-large"))
    else if ForbiddenField(input.content).Some? then
      Rejected(Ascii("forbidden-authority-field:") + ForbiddenField(input.content).value)
    else if !(SHA256 <= input.binding.bindingHash) || !p.isDate(input.createdAt) then Thrown
    else
      Accepted(Artifact(
        OrElse(input.artifactId, Sha256(p.hash, Join(IdParts(p, input), BAR))),
        input.binding.goalId, input.binding.planId, input.endpointId, input.binding.bindingHash, input.kind,
        ContentHash(p, input.content), summary, input.createdAt))
  }

  /** Exactly when an artifact is accepted, and what it is then. */
  lemma NormalizesExactly(p: Platform, input: NormalizeInput)
    requires WellFormed(input.content)
    ensures var r := Normalize(p, input);
            var text := Print(input.content);
            && (r.Accepted? <==>
                  && input.binding.lockedAt.Some?
                  && input.planId == input.binding.planId && input.planGoalId == input.binding.goalId
                  && input.endpointId == input.binding.reasoningEndpointId
                  && input.kind in {Ascii("plan-draft"), Ascii("review-result"), Ascii("execution-proposal")}
                  && 1 <= |Trim(input.summary)| <= 500
                  && input.content != Undefined
                  && p.utf8Length(text) <= (if input.maxContentBytes.Some? then input.maxContentBytes.value else 65536)
                  && !MentionsForbidden(input.content)
                  && SHA256 <= input.binding.bindingHash && p.isDate(input.createdAt))
            && (r.Accepted? ==>
                  && r.artifact.goalId == input.binding.goalId && r.artifact.planId == input.binding.planId
                  && r.artifact.endpointId == input.endpointId && r.artifact.bindingHash == input.binding.bindingHash
                  && r.artifact.kind == input.kind && r.artifact.summary == Trim(input.summary)
                  && r.artifact.createdAt == input.createdAt && r.artifact.contentHash == Sha256(p.hash, text)
                  && (input.artifactId.Some? ==> r.artifact.artifactId == input.artifactId.value))
  {
    ForbiddenFound(input.content);
  }

  /** The text behind a derived id: six parts with a bar between each two. */
  lemma DerivedId(p: Platform, input: NormalizeInput)
    requires Normalize(p, input).Accepted? && input.artifactId.None?
    ensures var a := Normalize(p, input).artifact;
            var text := Barred(a.bindingHash, Barred(a.goalId, Barred(a.planId, Barred(a.endpointId, Barred(a.kind, a.contentHash)))));
            a.artifactId == Sha256(p.hash, text)
  {
    var parts := IdParts(p, input);
    JoinCons(parts);
    JoinCons(parts[1..]);
    JoinCons(parts[1..][1..]);
    JoinCons(parts[1..][1..][1..]);
    JoinCons(parts[1..][1..][1..][1..]);
    assert parts[1..][1..][1..][1..][1..] == [parts[5]];
  }

  function Barred(head: Text, tail: Text): Text {
    head + [BAR] + tail
  }

  lemma JoinCons(parts: seq<Text>)
    requires |parts| > 1
    ensures Join(parts, BAR) == Barred(parts[0], Join(parts[1..], BAR))
  {
  }

  // ---- What a derived artifact id identifies ----

  /** The binding hash is the hash of the binding's own authority fields, written in hexadecimal. */
  ghost predicate HashedBinding(hash: Text -> Text, b: Binding) {
    b.bindingHash == HashBindingFields(hash, b) && BAR !in b.bindingHash
  }

  /** Two different texts that the digest does not tell apart, among those hashed for the two artifacts. */
  ghost predicate SomeCollision(p: Platform, x: NormalizeInput, y: NormalizeInput) {
    || Collision(p.hash, Join(IdParts(p, x), BAR), Join(IdParts(p, y), BAR))
    || Collision(p.hash, AuthorityText(AuthorityOf(x.binding)), AuthorityText(AuthorityOf(y.binding)))
    || Collision(p.hash, Print(x.content), Print(y.content))
  }

  lemma JoinSix(parts: seq<Text>, separator: CodeUnit)
    requires |parts| == 6
    ensures Join(parts, separator) == parts[0] + [separator] + Join(parts[1..], separator)
    ensures Join(parts[1..], separator) ==
              (parts[1] + [separator] + parts[2] + [separator] + parts[3] + [separator])
              + (parts[4] + [separator] + parts[5])
  {
    var q := parts[1..];
    assert Join(q, separator) == q[0] + [separator] + Join(q[1..], separator);
    assert Join(q[1..], separator) == q[1] + [separator] + Join(q[2..], separator);
    assert q[1..][1..] == q[2..];
    assert Join(q[2..], separator) == q[2] + [separator] + Join(q[3..], separator);
    assert q[2..][1..] == q[3..];
    assert Join(q[3..], separator) == q[3] + [separator] + Join(q[4..], separator);
    assert q[3..][1..] == q[4..];
    assert Join(q[4..], separator) == q[4];
  }

  lemma KnownKindHasNoBar(kind: Text)
    requires KnownKind(kind)
    ensures BAR !in kind
  {
  }

  /** The ids are derived from six parts joined by an unescaped `|`, three of which may hold a `|` themselves.
      Still, two accepted artifacts with the same derived id come from bindings with the same twelve
      authority fields and have the same endpoint, kind and content up to key order, or a hash collision
      is at hand. */
  lemma ArtifactIdIdentifies(p: Platform, x: NormalizeInput, y: NormalizeInput)
    requires Normalize(p, x).Accepted? && Normalize(p, y).Accepted?
    requires x.artifactId.None? && y.artifactId.None?
    requires HashedBinding(p.hash, x.binding) && HashedBinding(p.hash, y.binding)
    requires WellFormed(x.content) && WellFormed(y.content)
    requires Normalize(p, x).artifact.artifactId == Normalize(p, y).artifact.artifactId
    ensures SomeCollision(p, x, y) ||
            (&& AuthorityOf(x.binding) == AuthorityOf(y.binding)
             && x.endpointId == y.endpointId
             && x.kind == y.kind
             && EqualUpToKeyOrder(Collapse(x.content), Collapse(y.content)))
  {
    if !SomeCollision(p, x, y) {
      var s, t := IdParts(p, x), IdParts(p, y);
      SameDigest(p.hash, Join(s, BAR), Join(t, BAR));
      JoinSix(s, BAR);
      JoinSix(t, BAR);
      SplitAtSeparator(s[0], t[0], BAR, Join(s[1..], BAR), Join(t[1..], BAR));
      SameHashSameAuthority(p.hash, AuthorityOf(x.binding), AuthorityOf(y.binding));
      assert x.binding.goalId == AuthorityOf(x.binding).goalId && x.binding.planId == AuthorityOf(x.binding).planId;
      SameTails(s, t);
      SameDigest(p.hash, Print(x.content), Print(y.content));
      PrintUniquelyDecodable(x.content, y.content);
    }
  }

  lemma SameTails(s: seq<Text>, t: seq<Text>)
    requires |s| == 6 && |t| == 6 && s[1] == t[1] && s[2] == t[2] && s[3] == t[3]
    requires KnownKind(s[4]) && KnownKind(t[4]) && Join(s[1..], BAR) == Join(t[1..], BAR)
    ensures s[4] == t[4] && s[5] == t[5]
  {
    JoinSix(s, BAR);
    JoinSix(t, BAR);
    Cancel(s[1] + [BAR] + s[2] + [BAR] + s[3] + [BAR], s[4] + [BAR] + s[5], t[4] + [BAR] + t[5]);
    KnownKindHasNoBar(s[4]);
    KnownKindHasNoBar(t[4]);
    SplitAtSeparator(s[4], t[4], BAR, s[5], t[5]);
  }
}
