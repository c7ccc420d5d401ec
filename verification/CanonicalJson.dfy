/**
 The canonical catalog text: every object is rebuilt with its entries sorted by
 key before it is printed, at every depth.  Rebuilding goes through a JavaScript
 object, whose own keys list array indices first, in numeric order.
 */
module CanonicalJson {
  import opened Wrappers
  import opened JsonText
  import opened JsonReader

  /* ---- The order of keys ---- */

  // String comparison by code unit.
  predicate Less(a: Text, b: Text) {
    b != [] && (a == [] || a[0] < b[0] || (a[0] == b[0] && Less(a[1..], b[1..])))
  }

  predicate AllDigits(key: Text) { forall i | 0 <= i < |key| :: IsDigit(key[i]) }

  function IndexValue(key: Text): nat
    requires AllDigits(key)
  {
    if key == [] then 0
    else
      var digit: nat := key[|key| - 1] - ZERO;
      10 * IndexValue(key[..|key| - 1]) + digit
  }

  // A canonical decimal below 2^32 - 1: such keys come first among own keys.
  predicate IsArrayIndex(key: Text) {
    && key != [] && AllDigits(key)
    && (key[0] == ZERO ==> |key| == 1)
    && IndexValue(key) < 0xFFFF_FFFF
  }

  datatype Order = ByText | ByIndex

  predicate Before(order: Order, a: Text, b: Text) {
    match order
    case ByText => Less(a, b)
    case ByIndex => IsArrayIndex(a) && IsArrayIndex(b) && IndexValue(a) < IndexValue(b)
  }

  function Insert(order: Order, m: Member, sorted: seq<Member>): seq<Member> {
    if sorted == [] || Before(order, m.key, sorted[0].key) then [m] + sorted
    else [sorted[0]] + Insert(order, m, sorted[1..])
  }

  function Sort(order: Order, members: seq<Member>): seq<Member> {
    if members == [] then [] else Insert(order, members[0], Sort(order, members[1..]))
  }

  function Select(members: seq<Member>, indices: bool): seq<Member> {
    if members == [] then []
    else (if IsArrayIndex(members[0].key) == indices then [members[0]] else []) + Select(members[1..], indices)
  }

  // Own property order of an object built by adding these members one by one.
  function OwnOrder(members: seq<Member>): seq<Member> {
    Sort(ByIndex, Select(members, true)) + Select(members, false)
  }

  // What the replacer returns for an object.
  function Rebuilt(members: seq<Member>): seq<Member> {
    OwnOrder(Sort(ByText, members))
  }

  /* ---- Same members ---- */

  ghost predicate SameMembers(a: seq<Member>, b: seq<Member>) {
    forall m :: m in a <==> m in b
  }

  ghost predicate DistinctKeys(members: seq<Member>) {
    forall i, j | 0 <= i < j < |members| :: members[i].key != members[j].key
  }

  lemma {:induction false} InsertKeepsMembers(order: Order, m: Member, sorted: seq<Member>)
    ensures SameMembers(Insert(order, m, sorted), [m] + sorted)
  {
    if sorted != [] && !Before(order, m.key, sorted[0].key) {
      InsertKeepsMembers(order, m, sorted[1..]);
      assert sorted == [sorted[0]] + sorted[1..];
    }
  }

  lemma {:induction false} SortKeepsMembers(order: Order, members: seq<Member>)
    ensures SameMembers(Sort(order, members), members)
  {
    if members != [] {
      SortKeepsMembers(order, members[1..]);
      InsertKeepsMembers(order, members[0], Sort(order, members[1..]));
      assert members == [members[0]] + members[1..];
    }
  }

  lemma {:induction false} SelectKeepsMembers(members: seq<Member>, indices: bool)
    ensures forall m :: m in Select(members, indices) <==> m in members && IsArrayIndex(m.key) == indices
  {
    if members != [] {
      SelectKeepsMembers(members[1..], indices);
      assert members == [members[0]] + members[1..];
    }
  }

  lemma {:induction false} RebuiltKeepsMembers(members: seq<Member>)
    ensures SameMembers(Rebuilt(members), members)
  {
    var sorted := Sort(ByText, members);
    SortKeepsMembers(ByText, members);
    SelectKeepsMembers(sorted, true);
    SelectKeepsMembers(sorted, false);
    SortKeepsMembers(ByIndex, Select(sorted, true));
  }

  lemma {:induction false} RebuiltIsPartOf(v: Json, members: seq<Member>)
    requires v == Object(members)
    ensures forall i | 0 <= i < |Rebuilt(members)| :: Rebuilt(members)[i].value < v
  {
    RebuiltKeepsMembers(members);
    forall i | 0 <= i < |Rebuilt(members)|
      ensures Rebuilt(members)[i].value < v
    {
      assert Rebuilt(members)[i] in members;
    }
  }

  /* ---- The canonical text ---- */

  // The replacer visits a value before its parts: an object is rebuilt first,
  // then its members are visited in their new order.
  function CanonicalText(v: Json): Text
    decreases v
  {
    match v
    case Array(items) => [OPEN_BRACKET] + CanonicalItems(v, items) + [CLOSE_BRACKET]
    case Object(members) =>
      RebuiltIsPartOf(v, members);
      [OPEN_BRACE] + CanonicalMembers(v, Rebuilt(members)) + [CLOSE_BRACE]
    case _ => Stringify(v)
  }

  function CanonicalItems(owner: Json, items: seq<Json>): Text
    requires forall i | 0 <= i < |items| :: items[i] < owner
    decreases owner, |items|
  {
    if items == [] then []
    else if |items| == 1 then CanonicalText(items[0])
    else CanonicalText(items[0]) + [COMMA] + CanonicalItems(owner, items[1..])
  }

  function CanonicalMembers(owner: Json, members: seq<Member>): Text
    requires forall i | 0 <= i < |members| :: members[i].value < owner
    decreases owner, |members|
  {
    if members == [] then []
    else
      var first := Quoted(members[0].key) + [COLON] + CanonicalText(members[0].value);
      if |members| == 1 then first else first + [COMMA] + CanonicalMembers(owner, members[1..])
  }

  /* ---- The value that text stands for ---- */

  function Normal(v: Json): Json
    decreases v, 0
  {
    match v
    case Array(items) => Array(NormalItems(items))
    case Object(members) => Object(Rebuilt(NormalMembers(members)))
    case _ => v
  }

  function NormalItems(items: seq<Json>): (r: seq<Json>)
    ensures |r| == |items| && forall i | 0 <= i < |items| :: r[i] == Normal(items[i])
    decreases items, 0
  {
    if items == [] then [] else [Normal(items[0])] + NormalItems(items[1..])
  }

  function NormalMembers(members: seq<Member>): (r: seq<Member>)
    ensures |r| == |members|
    ensures forall i | 0 <= i < |members| :: r[i] == NormalMember(members[i])
    decreases members, 0
  {
    if members == [] then [] else [NormalMember(members[0])] + NormalMembers(members[1..])
  }

  function NormalMember(m: Member): Member
    decreases m, 0
  {
    Member(m.key, Normal(m.value))
  }

  // Sorting looks at keys only, so it does not matter whether the values were visited before.
  lemma {:induction false} InsertCommutes(order: Order, m: Member, sorted: seq<Member>)
    ensures Insert(order, NormalMember(m), NormalMembers(sorted)) == NormalMembers(Insert(order, m, sorted))
  {
    if sorted != [] && !Before(order, m.key, sorted[0].key) {
      InsertCommutes(order, m, sorted[1..]);
      assert NormalMembers(sorted)[1..] == NormalMembers(sorted[1..]);
      assert Insert(order, m, sorted)[1..] == Insert(order, m, sorted[1..]);
    } else {
      assert ([m] + sorted)[1..] == sorted;
    }
  }

  lemma {:induction false} SortCommutes(order: Order, members: seq<Member>)
    ensures Sort(order, NormalMembers(members)) == NormalMembers(Sort(order, members))
  {
    if members != [] {
      SortCommutes(order, members[1..]);
      assert NormalMembers(members)[1..] == NormalMembers(members[1..]);
      InsertCommutes(order, members[0], Sort(order, members[1..]));
    }
  }

  lemma {:induction false} NormalMembersConcat(a: seq<Member>, b: seq<Member>)
    ensures NormalMembers(a + b) == NormalMembers(a) + NormalMembers(b)
  {}

  lemma {:induction false} SelectCommutes(members: seq<Member>, indices: bool)
    ensures Select(NormalMembers(members), indices) == NormalMembers(Select(members, indices))
  {
    if members != [] {
      SelectCommutes(members[1..], indices);
      assert NormalMembers(members)[1..] == NormalMembers(members[1..]);
      var first := if IsArrayIndex(members[0].key) == indices then [members[0]] else [];
      NormalMembersConcat(first, Select(members[1..], indices));
    }
  }

  lemma {:induction false} RebuiltCommutes(members: seq<Member>)
    ensures Rebuilt(NormalMembers(members)) == NormalMembers(Rebuilt(members))
  {
    var sorted := Sort(ByText, members);
    SortCommutes(ByText, members);
    SelectCommutes(sorted, true);
    SelectCommutes(sorted, false);
    SortCommutes(ByIndex, Select(sorted, true));
    NormalMembersConcat(Sort(ByIndex, Select(sorted, true)), Select(sorted, false));
  }

  // The text printed on the way down is the plain text of the normal value.
  lemma {:induction false} CanonicalTextPrintsNormal(v: Json)
    ensures CanonicalText(v) == Stringify(Normal(v))
    decreases v
  {
    match v
    case Array(items) => CanonicalItemsPrintNormal(v, items);
    case Object(members) =>
      RebuiltIsPartOf(v, members);
      RebuiltCommutes(members);
      CanonicalMembersPrintNormal(v, Rebuilt(members));
    case _ =>
  }

  lemma {:induction false} CanonicalItemsPrintNormal(owner: Json, items: seq<Json>)
    requires forall i | 0 <= i < |items| :: items[i] < owner
    ensures CanonicalItems(owner, items) == StringifyItems(NormalItems(items))
    decreases owner, |items|
  {
    if items != [] {
      CanonicalTextPrintsNormal(items[0]);
      CanonicalItemsPrintNormal(owner, items[1..]);
      assert NormalItems(items)[1..] == NormalItems(items[1..]);
    }
  }

  lemma {:induction false} CanonicalMembersPrintNormal(owner: Json, members: seq<Member>)
    requires forall i | 0 <= i < |members| :: members[i].value < owner
    ensures CanonicalMembers(owner, members) == StringifyMembers(NormalMembers(members))
    decreases owner, |members|
  {
    if members != [] {
      CanonicalTextPrintsNormal(members[0].value);
      CanonicalMembersPrintNormal(owner, members[1..]);
      assert NormalMembers(members)[1..] == NormalMembers(members[1..]);
    }
  }

  // Reading the canonical text back gives the normal value.
  lemma {:induction false} CanonicalTextReadsBack(v: Json)
    ensures ReadValue(CanonicalText(v)) == Some(Read(Normal(v), []))
  {
    CanonicalTextPrintsNormal(v);
    ValueReadsBack(Normal(v), []);
    assert Stringify(Normal(v)) + [] == Stringify(Normal(v));
  }

  /* ---- Equal up to key order, at every depth ---- */

  ghost predicate WellFormed(v: Json)
    decreases v
  {
    match v
    case Array(items) => forall i | 0 <= i < |items| :: WellFormed(items[i])
    case Object(members) =>
      DistinctKeys(members) && forall i | 0 <= i < |members| :: WellFormed(members[i].value)
    case _ => true
  }

  ghost predicate Equivalent(v: Json, w: Json)
    decreases v
  {
    match (v, w)
    case (Array(a), Array(b)) => |a| == |b| && forall i | 0 <= i < |a| :: Equivalent(a[i], b[i])
    case (Object(a), Object(b)) =>
      && (forall i | 0 <= i < |a| :: HasTwin(a[i], b))
      && (forall j | 0 <= j < |b| :: HasKey(b[j].key, a))
    case _ => v == w
  }

  ghost predicate HasTwin(m: Member, members: seq<Member>)
    decreases m
  {
    exists j | 0 <= j < |members| :: m.key == members[j].key && Equivalent(m.value, members[j].value)
  }

  ghost predicate HasKey(key: Text, members: seq<Member>) {
    exists j | 0 <= j < |members| :: key == members[j].key
  }

  /* ---- A sorted list is determined by its members ---- */

  lemma {:induction false} LessIsTransitive(a: Text, b: Text, c: Text)
    requires Less(a, b) && Less(b, c)
    ensures Less(a, c)
    decreases |a|
  {
    if a != [] && a[0] == b[0] && b[0] == c[0] {
      LessIsTransitive(a[1..], b[1..], c[1..]);
    }
  }

  lemma {:induction false} LessIsTotal(a: Text, b: Text)
    ensures !Less(a, a)
    ensures Less(a, b) || Less(b, a) || a == b
    decreases |a|
  {
    if a != [] {
      if b != [] {
        LessIsTotal(a[1..], b[1..]);
        assert a[0] == b[0] && a[1..] == b[1..] ==> a == [b[0]] + b[1..] == b;
      } else {
        LessIsTotal(a[1..], []);
      }
    }
  }

  ghost predicate Sorted(members: seq<Member>) {
    forall i, j | 0 <= i < j < |members| :: Less(members[i].key, members[j].key)
  }

  lemma {:induction false} InsertSorts(m: Member, sorted: seq<Member>)
    requires Sorted(sorted) && forall x | x in sorted :: x.key != m.key
    ensures Sorted(Insert(ByText, m, sorted))
  {
    if sorted != [] {
      LessIsTotal(m.key, sorted[0].key);
      assert sorted[0] in sorted;
      if Less(m.key, sorted[0].key) {
        forall j | 1 <= j < |sorted|
          ensures Less(m.key, sorted[j].key)
        {
          LessIsTransitive(m.key, sorted[0].key, sorted[j].key);
        }
      } else {
        var rest := Insert(ByText, m, sorted[1..]);
        InsertSorts(m, sorted[1..]);
        InsertKeepsMembers(ByText, m, sorted[1..]);
        forall j | 0 <= j < |rest|
          ensures Less(sorted[0].key, rest[j].key)
        {
          assert rest[j] in [m] + sorted[1..];
        }
      }
    }
  }

  lemma {:induction false} SortSorts(members: seq<Member>)
    requires DistinctKeys(members)
    ensures Sorted(Sort(ByText, members))
  {
    if members != [] {
      SortSorts(members[1..]);
      SortKeepsMembers(ByText, members[1..]);
      InsertSorts(members[0], Sort(ByText, members[1..]));
    }
  }

  ghost predicate SortedByIndex(members: seq<Member>) {
    && (forall i | 0 <= i < |members| :: IsArrayIndex(members[i].key))
    && (forall i, j | 0 <= i < j < |members| :: IndexValue(members[i].key) <= IndexValue(members[j].key))
  }

  lemma {:induction false} InsertSortsByIndex(m: Member, sorted: seq<Member>)
    requires IsArrayIndex(m.key) && SortedByIndex(sorted)
    ensures SortedByIndex(Insert(ByIndex, m, sorted))
  {
    if sorted != [] && !Before(ByIndex, m.key, sorted[0].key) {
      var rest := Insert(ByIndex, m, sorted[1..]);
      InsertSortsByIndex(m, sorted[1..]);
      InsertKeepsMembers(ByIndex, m, sorted[1..]);
      forall j | 0 <= j < |rest|
        ensures IndexValue(sorted[0].key) <= IndexValue(rest[j].key)
      {
        assert rest[j] in [m] + sorted[1..];
      }
    }
  }

  lemma {:induction false} SortSortsByIndex(members: seq<Member>)
    requires forall i | 0 <= i < |members| :: IsArrayIndex(members[i].key)
    ensures SortedByIndex(Sort(ByIndex, members))
  {
    if members != [] {
      SortSortsByIndex(members[1..]);
      InsertSortsByIndex(members[0], Sort(ByIndex, members[1..]));
    }
  }

  lemma {:induction false} SelectKeepsOrder(members: seq<Member>, indices: bool)
    requires Sorted(members)
    ensures Sorted(Select(members, indices))
  {
    if members != [] {
      SelectKeepsOrder(members[1..], indices);
      SelectKeepsMembers(members[1..], indices);
      var rest := Select(members[1..], indices);
      forall j | 0 <= j < |rest|
        ensures Less(members[0].key, rest[j].key)
      {
        assert rest[j] in members[1..];
      }
    }
  }

  // The rebuilt object lists array indices in numeric order, then every other
  // key in code unit order.
  lemma {:induction false} RebuiltOrder(members: seq<Member>) returns (k: nat)
    requires DistinctKeys(members)
    ensures k <= |Rebuilt(members)|
    ensures SortedByIndex(Rebuilt(members)[..k])
    ensures Sorted(Rebuilt(members)[k..])
    ensures forall i | k <= i < |Rebuilt(members)| :: !IsArrayIndex(Rebuilt(members)[i].key)
    ensures SameMembers(Rebuilt(members), members)
  {
    var sorted := Sort(ByText, members);
    var indices, others := Select(sorted, true), Select(sorted, false);
    k := |Sort(ByIndex, indices)|;
    SortSorts(members);
    SelectKeepsOrder(sorted, false);
    SelectKeepsMembers(sorted, false);
    SelectKeepsMembers(sorted, true);
    assert forall i | 0 <= i < |indices| :: indices[i] in indices;
    assert forall i | 0 <= i < |others| :: others[i] in others;
    SortSortsByIndex(indices);
    RebuiltKeepsMembers(members);
    assert Rebuilt(members)[..k] == Sort(ByIndex, indices) && Rebuilt(members)[k..] == others;
  }

  lemma {:induction false} SortedIsUnique(a: seq<Member>, b: seq<Member>)
    requires Sorted(a) && Sorted(b) && SameMembers(a, b)
    ensures a == b
    decreases |a|
  {
    assert a == [] || a[0] in b;
    assert b == [] || b[0] in a;
    if a != [] {
      HeadIsLeast(a, b[0]);
      HeadIsLeast(b, a[0]);
      LessIsTotal(a[0].key, a[0].key);
      if a[0] != b[0] {
        LessIsTransitive(a[0].key, b[0].key, a[0].key);
        assert false;
      }
      TailsMatch(a, b);
      SortedIsUnique(a[1..], b[1..]);
    }
  }

  lemma {:induction false} HeadIsLeast(a: seq<Member>, m: Member)
    requires Sorted(a) && m in a
    ensures m == a[0] || Less(a[0].key, m.key)
  {}

  lemma {:induction false} TailsMatch(a: seq<Member>, b: seq<Member>)
    requires Sorted(a) && Sorted(b) && SameMembers(a, b) && a != [] && b != [] && a[0] == b[0]
    ensures SameMembers(a[1..], b[1..])
  {
    TailHasTheRest(a);
    TailHasTheRest(b);
  }

  lemma {:induction false} TailHasTheRest(a: seq<Member>)
    requires Sorted(a) && a != []
    ensures forall m :: m in a[1..] <==> m in a && m != a[0]
  {
    LessIsTotal(a[0].key, a[0].key);
    assert a == [a[0]] + a[1..];
  }

  lemma {:induction false} SameMembersSortAlike(a: seq<Member>, b: seq<Member>)
    requires DistinctKeys(a) && DistinctKeys(b) && SameMembers(a, b)
    ensures Rebuilt(a) == Rebuilt(b)
  {
    SortKeepsMembers(ByText, a);
    SortKeepsMembers(ByText, b);
    SortSorts(a);
    SortSorts(b);
    SortedIsUnique(Sort(ByText, a), Sort(ByText, b));
  }

  /* ---- Equivalent values are exactly those with one normal form ---- */

  lemma {:induction false} EquivalentHaveOneNormal(v: Json, w: Json)
    requires WellFormed(v) && WellFormed(w) && Equivalent(v, w)
    ensures Normal(v) == Normal(w)
    decreases v
  {
    match (v, w)
    case (Array(a), Array(b)) => EquivalentItems(v, a, b);
    case (Object(a), Object(b)) =>
      forall i | 0 <= i < |a|
        ensures NormalMember(a[i]) in NormalMembers(b)
      {
        TwinsHaveOneNormal(a[i], b);
      }
      TwinsAreTheSame(a, b);
      SameMembersSortAlike(NormalMembers(a), NormalMembers(b));
    case _ =>
  }

  lemma {:induction false} EquivalentItems(owner: Json, a: seq<Json>, b: seq<Json>)
    requires forall i | 0 <= i < |a| :: a[i] < owner && WellFormed(a[i])
    requires |a| == |b| && forall i | 0 <= i < |a| :: Equivalent(a[i], b[i]) && WellFormed(b[i])
    ensures NormalItems(a) == NormalItems(b)
    decreases owner, 0
  {
    forall i | 0 <= i < |a|
      ensures Normal(a[i]) == Normal(b[i])
    {
      EquivalentHaveOneNormal(a[i], b[i]);
    }
  }

  lemma {:induction false} TwinsHaveOneNormal(m: Member, members: seq<Member>)
    requires WellFormed(m.value) && HasTwin(m, members)
    requires forall j | 0 <= j < |members| :: WellFormed(members[j].value)
    ensures NormalMember(m) in NormalMembers(members)
    decreases m
  {
    var j :| 0 <= j < |members| && m.key == members[j].key && Equivalent(m.value, members[j].value);
    EquivalentHaveOneNormal(m.value, members[j].value);
    assert NormalMembers(members)[j] == NormalMember(m);
  }

  lemma {:induction false} TwinsAreTheSame(a: seq<Member>, b: seq<Member>)
    requires DistinctKeys(b)
    requires forall i | 0 <= i < |a| :: NormalMember(a[i]) in NormalMembers(b)
    requires forall j | 0 <= j < |b| :: HasKey(b[j].key, a)
    ensures SameMembers(NormalMembers(a), NormalMembers(b))
  {
    forall j | 0 <= j < |b|
      ensures NormalMembers(b)[j] in NormalMembers(a)
    {
      var i :| 0 <= i < |a| && b[j].key == a[i].key;
      var k :| 0 <= k < |b| && NormalMembers(b)[k] == NormalMember(a[i]);
      assert k == j && NormalMembers(a)[i] == NormalMembers(b)[j];
    }
  }

  lemma {:induction false} OneNormalIsEquivalent(v: Json, w: Json)
    requires Normal(v) == Normal(w)
    ensures Equivalent(v, w)
    decreases v
  {
    match (v, w)
    case (Array(a), Array(b)) => OneNormalItems(v, a, b);
    case (Object(a), Object(b)) =>
      RebuiltKeepsMembers(NormalMembers(a));
      RebuiltKeepsMembers(NormalMembers(b));
      forall i | 0 <= i < |a|
        ensures HasTwin(a[i], b)
      {
        OneNormalTwin(a, b, i);
      }
      forall j | 0 <= j < |b|
        ensures HasKey(b[j].key, a)
      {
        var i := Counterpart(b, a, j);
      }
    case _ =>
  }

  lemma {:induction false} OneNormalItems(owner: Json, a: seq<Json>, b: seq<Json>)
    requires forall i | 0 <= i < |a| :: a[i] < owner
    requires NormalItems(a) == NormalItems(b)
    ensures |a| == |b| && forall i | 0 <= i < |a| :: Equivalent(a[i], b[i])
    decreases owner, 0
  {
    assert |a| == |NormalItems(a)| == |NormalItems(b)| == |b|;
    forall i | 0 <= i < |a|
      ensures Equivalent(a[i], b[i])
    {
      assert NormalItems(a)[i] == NormalItems(b)[i];
      OneNormalIsEquivalent(a[i], b[i]);
    }
  }

  lemma {:induction false} OneNormalTwin(a: seq<Member>, b: seq<Member>, i: nat)
    requires i < |a| && SameMembers(NormalMembers(a), NormalMembers(b))
    ensures HasTwin(a[i], b)
    decreases a[i]
  {
    var j := Counterpart(a, b, i);
    OneNormalIsEquivalent(a[i].value, b[j].value);
  }

  lemma {:induction false} Counterpart(a: seq<Member>, b: seq<Member>, i: nat) returns (j: nat)
    requires i < |a| && SameMembers(NormalMembers(a), NormalMembers(b))
    ensures j < |b| && NormalMember(a[i]) == NormalMember(b[j])
  {
    assert NormalMembers(a)[i] in NormalMembers(b);
    j :| j < |b| && NormalMembers(b)[j] == NormalMembers(a)[i];
  }

  // Two values have the same canonical text exactly when they are equal up to
  // the order of keys at every depth.
  lemma {:induction false} CanonicalEncoding(v: Json, w: Json)
    requires WellFormed(v) && WellFormed(w)
    ensures CanonicalText(v) == CanonicalText(w) <==> Equivalent(v, w)
  {
    CanonicalTextPrintsNormal(v);
    CanonicalTextPrintsNormal(w);
    if CanonicalText(v) == CanonicalText(w) {
      StringifyIsInjective(Normal(v), Normal(w));
      OneNormalIsEquivalent(v, w);
    }
    if Equivalent(v, w) {
      EquivalentHaveOneNormal(v, w);
    }
  }
}
