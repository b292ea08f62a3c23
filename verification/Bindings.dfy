/** Run-endpoint bindings and the hash of their twelve authority fields. */
module Bindings {
  import opened Wrappers
  import opened Texts
  import opened KeyedSort
  import opened Json
  import opened CanonicalJson

  type FiniteNumber = x: Number | ValidNumber(x) witness Whole(0)

  datatype Transport = Mock | Clipboard | Command | ManagedPty | FileProtocol | WebDom | Terminal | WorkBuddy

  datatype EndpointRef = EndpointRef(id: Text, displayLabel: Text, transport: Transport, canExecute: bool)

  datatype Binding = Binding(
    goalId: Text,
    planId: Text,
    parentPlanId: Option<Text>,
    reasoningEndpointId: Text,
    executionEndpointId: Text,
    reasoningEndpoint: EndpointRef,
    executionEndpoint: EndpointRef,
    reasoningTier: Text,
    executionTier: Text,
    executionPermissionProfile: Text,
    executionWorkingDirectoryRef: Text,
    maxSteps: FiniteNumber,
    maxReasoningRounds: FiniteNumber,
    deadlineAt: Text,
    createdAt: int,
    updatedAt: int,
    bindingHash: Text,
    lockedAt: Option<int>)

  /** The fields that carry authority: the ones that are hashed. */
  datatype Authority = Authority(
    goalId: Text,
    planId: Text,
    parentPlanId: Option<Text>,
    reasoningEndpointId: Text,
    executionEndpointId: Text,
    reasoningTier: Text,
    executionTier: Text,
    executionPermissionProfile: Text,
    executionWorkingDirectoryRef: Text,
    maxSteps: FiniteNumber,
    maxReasoningRounds: FiniteNumber,
    deadlineAt: Text)

  function AuthorityOf(b: Binding): Authority {
    Authority(b.goalId, b.planId, b.parentPlanId, b.reasoningEndpointId, b.executionEndpointId, b.reasoningTier,
              b.executionTier, b.executionPermissionProfile, b.executionWorkingDirectoryRef, b.maxSteps,
              b.maxReasoningRounds, b.deadlineAt)
  }

  function OptionalText(o: Option<Text>): Json {
    match o
    case None => Undefined
    case Some(t) => Str(t)
  }

  function AuthorityFields(a: Authority): seq<Keyed<Json>> {
    [Keyed(Ascii("goalId"), Str(a.goalId)),
     Keyed(Ascii("planId"), Str(a.planId)),
     Keyed(Ascii("parentPlanId"), OptionalText(a.parentPlanId)),
     Keyed(Ascii("reasoningEndpointId"), Str(a.reasoningEndpointId)),
     Keyed(Ascii("executionEndpointId"), Str(a.executionEndpointId)),
     Keyed(Ascii("reasoningTier"), Str(a.reasoningTier)),
     Keyed(Ascii("executionTier"), Str(a.executionTier)),
     Keyed(Ascii("executionPermissionProfile"), Str(a.executionPermissionProfile)),
     Keyed(Ascii("executionWorkingDirectoryRef"), Str(a.executionWorkingDirectoryRef)),
     Keyed(Ascii("maxSteps"), Num(a.maxSteps)),
     Keyed(Ascii("maxReasoningRounds"), Num(a.maxReasoningRounds)),
     Keyed(Ascii("deadlineAt"), Str(a.deadlineAt))]
  }

  /** The text that is hashed. */
  function AuthorityText(a: Authority): Text {
    Print(Obj(AuthorityFields(a)))
  }

  const SHA256: Text := Ascii("sha256:")

  /** `hash` is the hexadecimal digest of a text, about which nothing is assumed here. */
  function Sha256(hash: Text -> Text, text: Text): Text {
    SHA256 + hash(text)
  }

  function HashBindingFields(hash: Text -> Text, b: Binding): Text {
    Sha256(hash, AuthorityText(AuthorityOf(b)))
  }

  // ---- The hashed text determines the authority ----

  lemma AuthorityKeysDistinct(a: Authority)
    ensures DistinctKeys(AuthorityFields(a))
  {
    var k := Keys(AuthorityFields(a));
    assert |k[0]| == 6 && |k[1]| == 6 && |k[2]| == 12 && |k[3]| == 19 && |k[4]| == 19 && |k[5]| == 13 && |k[6]| == 13
        && |k[7]| == 26 && |k[8]| == 28 && |k[9]| == 8 && |k[10]| == 18 && |k[11]| == 10;
    assert k[0][0] == 'g' as int && k[1][0] == 'p' as int && k[3][0] == 'r' as int && k[4][0] == 'e' as int
        && k[5][0] == 'r' as int && k[6][0] == 'e' as int;
  }

  predicate Scalar(v: Json) {
    !v.Arr? && !v.Obj?
  }

  /** Two objects with the same distinct keys and scalar values that print alike are equal, field by field. */
  lemma AlignedFields(f: seq<Keyed<Json>>, g: seq<Keyed<Json>>)
    requires |f| == |g| && Keys(f) == Keys(g)
    requires WellFormed(Obj(f)) && Plain(Obj(f)) && WellFormed(Obj(g)) && Plain(Obj(g))
    requires forall i :: 0 <= i < |f| ==> Scalar(f[i].val)
    requires Print(Obj(f)) == Print(Obj(g))
    ensures forall i :: 0 <= i < |f| ==> f[i].val == g[i].val
  {
    PlainPrintUniquelyDecodable(Obj(f), Obj(g));
    forall i | 0 <= i < |f| ensures f[i].val == g[i].val {
      assert HasCounterpart(f[i], g);
      var j :| 0 <= j < |g| && f[i].key == g[j].key && EqualUpToKeyOrder(f[i].val, g[j].val);
      assert Keys(f)[i] == Keys(g)[i] && Keys(g)[j] == g[j].key;
      assert i == j;
    }
  }

  lemma AuthorityKeysFixed(a: Authority, b: Authority)
    ensures Keys(AuthorityFields(a)) == Keys(AuthorityFields(b))
  {
  }

  lemma AuthorityFieldsSound(a: Authority)
    ensures WellFormed(Obj(AuthorityFields(a))) && Plain(Obj(AuthorityFields(a)))
    ensures forall i :: 0 <= i < |AuthorityFields(a)| ==> Scalar(AuthorityFields(a)[i].val)
  {
    AuthorityKeysDistinct(a);
    var f := AuthorityFields(a);
    forall i | 0 <= i < |f| ensures WellFormed(f[i].val) && Plain(f[i].val) && Scalar(f[i].val) {
    }
  }

  /** All twelve authority fields can be recovered from the text that is hashed. */
  lemma AuthorityTextInjective(a: Authority, b: Authority)
    ensures AuthorityText(a) == AuthorityText(b) <==> a == b
  {
    if AuthorityText(a) == AuthorityText(b) {
      SameTextSameAuthority(a, b);
    }
  }

  lemma SameTextSameAuthority(a: Authority, b: Authority)
    requires AuthorityText(a) == AuthorityText(b)
    ensures a == b
  {
    AuthorityFieldsSound(a);
    AuthorityFieldsSound(b);
    AuthorityKeysFixed(a, b);
    AlignedFields(AuthorityFields(a), AuthorityFields(b));
    SameFieldsSameAuthority(a, b);
  }

  lemma SameFieldsSameAuthority(a: Authority, b: Authority)
    requires forall i :: 0 <= i < 12 ==> AuthorityFields(a)[i].val == AuthorityFields(b)[i].val
    ensures a == b
  {
    var f, g := AuthorityFields(a), AuthorityFields(b);
    assert f[0].val == g[0].val && f[1].val == g[1].val && f[2].val == g[2].val && f[3].val == g[3].val;
    assert f[4].val == g[4].val && f[5].val == g[5].val && f[6].val == g[6].val && f[7].val == g[7].val;
    assert f[8].val == g[8].val && f[9].val == g[9].val && f[10].val == g[10].val && f[11].val == g[11].val;
  }

  /** Two different texts with the same digest. */
  ghost predicate Collision(hash: Text -> Text, x: Text, y: Text) {
    x != y && hash(x) == hash(y)
  }

  lemma SameDigest(hash: Text -> Text, x: Text, y: Text)
    requires Sha256(hash, x) == Sha256(hash, y)
    ensures x == y || Collision(hash, x, y)
  {
    Cancel(SHA256, hash(x), hash(y));
  }

  /** Equal binding hashes mean equal authority, unless the two authority texts are a hash collision. */
  lemma SameHashSameAuthority(hash: Text -> Text, a: Authority, b: Authority)
    ensures Sha256(hash, AuthorityText(a)) == Sha256(hash, AuthorityText(b)) <==>
              a == b || Collision(hash, AuthorityText(a), AuthorityText(b))
  {
    AuthorityTextInjective(a, b);
    if Sha256(hash, AuthorityText(a)) == Sha256(hash, AuthorityText(b)) {
      SameDigest(hash, AuthorityText(a), AuthorityText(b));
    }
  }
}
