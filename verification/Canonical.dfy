// agent/policy/canonical.py: strip comment keys, sort keys, print compactly. The bytes determine the document.
module Canonical {
  import opened Types
  import opened Text
  import opened Json

  // ------------------------------------------------------------ dropping comments

  /** Keys that start with an underscore are annotations. */
  predicate Comment(key: Text) { key != [] && key[0] == 0x5F }

  function Strip(j: Json): Json {
    match j
    case Arr(items) => Arr(StripItems(items))
    case Obj(ms) => Obj(StripMembers(ms))
    case _ => j
  }

  function StripItems(items: seq<Json>): (r: seq<Json>)
    ensures |r| == |items|
  {
    if items == [] then [] else [Strip(items[0])] + StripItems(items[1..])
  }

  function StripMembers(ms: seq<Member>): (r: seq<Member>)
    ensures forall m :: m in r ==> !Comment(m.key)
    ensures forall m :: m in r ==> exists i :: 0 <= i < |ms| && ms[i].key == m.key
  {
    if ms == [] then []
    else if Comment(ms[0].key) then StripMembers(ms[1..])
    else [Member(ms[0].key, Strip(ms[0].value))] + StripMembers(ms[1..])
  }

  lemma {:induction false} StripIdempotent(j: Json)
    ensures Strip(Strip(j)) == Strip(j)
    decreases j, 1
  {
    match j
    case Arr(items) => StripItemsIdempotent(items);
    case Obj(ms) => StripMembersIdempotent(ms);
    case _ =>
  }

  lemma {:induction false} StripItemsIdempotent(items: seq<Json>)
    ensures StripItems(StripItems(items)) == StripItems(items)
    decreases items, 0
  {
    if items != [] {
      StripIdempotent(items[0]);
      StripItemsIdempotent(items[1..]);
      assert StripItems(items)[1..] == StripItems(items[1..]);
    }
  }

  lemma {:induction false} StripMembersIdempotent(ms: seq<Member>)
    ensures StripMembers(StripMembers(ms)) == StripMembers(ms)
    decreases ms, 0
  {
    if ms != [] {
      StripMembersIdempotent(ms[1..]);
      if !Comment(ms[0].key) {
        StripIdempotent(ms[0].value);
        assert StripMembers(ms)[1..] == StripMembers(ms[1..]);
      }
    }
  }

  lemma {:induction false} StripKeepsValid(j: Json)
    requires Valid(j)
    ensures Valid(Strip(j))
    decreases j, 1
  {
    match j
    case Arr(items) => StripItemsValid(items);
    case Obj(ms) => StripMembersValid(ms);
    case _ =>
  }

  lemma {:induction false} StripItemsValid(items: seq<Json>)
    requires forall i :: 0 <= i < |items| ==> Valid(items[i])
    ensures forall i :: 0 <= i < |items| ==> Valid(StripItems(items)[i])
    decreases items, 0
  {
    if items != [] {
      StripKeepsValid(items[0]);
      StripItemsValid(items[1..]);
    }
  }

  lemma {:induction false} StripMembersValid(ms: seq<Member>)
    requires DistinctKeys(ms) && forall i :: 0 <= i < |ms| ==> Valid(ms[i].value)
    ensures Valid(Obj(StripMembers(ms)))
    decreases ms, 0
  {
    if ms != [] {
      StripMembersValid(ms[1..]);
      if !Comment(ms[0].key) {
        StripKeepsValid(ms[0].value);
      }
    }
  }

  // ------------------------------------------------------------ key order

  /** Strict order of keys by code point. */
  predicate Before(a: Text, b: Text) {
    b != [] && (a == [] || a[0] < b[0] || (a[0] == b[0] && Before(a[1..], b[1..])))
  }

  lemma {:induction false} BeforeTotal(a: Text, b: Text)
    ensures a == b || Before(a, b) || Before(b, a)
    ensures !(Before(a, b) && Before(b, a)) && (a == b ==> !Before(a, b))
  {
    if a != [] && b != [] {
      BeforeTotal(a[1..], b[1..]);
      if a[0] == b[0] && a[1..] == b[1..] {
        assert a == [a[0]] + a[1..] && b == [b[0]] + b[1..];
      }
    }
  }

  lemma {:induction false} BeforeTransitive(a: Text, b: Text, c: Text)
    requires Before(a, b) && Before(b, c)
    ensures Before(a, c)
  {
    if a != [] && a[0] == b[0] && b[0] == c[0] {
      BeforeTransitive(a[1..], b[1..], c[1..]);
    }
  }

  ghost predicate Ascending(ms: seq<Member>) {
    forall i, j :: 0 <= i < j < |ms| ==> Before(ms[i].key, ms[j].key)
  }

  function InsertMember(m: Member, ms: seq<Member>): seq<Member> {
    if ms == [] then [m]
    else if Before(ms[|ms| - 1].key, m.key) then ms + [m]
    else InsertMember(m, ms[..|ms| - 1]) + [ms[|ms| - 1]]
  }

  function SortMembers(ms: seq<Member>): seq<Member> {
    if ms == [] then [] else InsertMember(ms[0], SortMembers(ms[1..]))
  }

  lemma {:induction false} InsertMemberHas(m: Member, ms: seq<Member>, x: Member)
    ensures x in InsertMember(m, ms) <==> x == m || x in ms
  {
    if ms != [] {
      var n := |ms| - 1;
      InsertMemberHas(m, ms[..n], x);
      assert x in ms <==> x in ms[..n] || x == ms[n];
    }
  }

  lemma {:induction false} InsertMemberAscending(m: Member, ms: seq<Member>)
    requires Ascending(ms) && forall x :: x in ms ==> x.key != m.key
    ensures Ascending(InsertMember(m, ms))
  {
    if ms != [] {
      var n := |ms| - 1;
      BeforeTotal(ms[n].key, m.key);
      if Before(ms[n].key, m.key) {
        forall i | 0 <= i < n ensures Before(ms[i].key, m.key) {
          BeforeTransitive(ms[i].key, ms[n].key, m.key);
        }
      } else {
        InsertMemberAscending(m, ms[..n]);
        var head := InsertMember(m, ms[..n]);
        forall i | 0 <= i < |head| ensures Before(head[i].key, ms[n].key) {
          InsertMemberHas(m, ms[..n], head[i]);
        }
      }
    }
  }

  lemma {:induction false} SortMembersHas(ms: seq<Member>, x: Member)
    ensures x in SortMembers(ms) <==> x in ms
  {
    if ms != [] {
      SortMembersHas(ms[1..], x);
      InsertMemberHas(ms[0], SortMembers(ms[1..]), x);
    }
  }

  lemma {:induction false} SortMembersAscending(ms: seq<Member>)
    requires DistinctKeys(ms)
    ensures Ascending(SortMembers(ms))
  {
    if ms != [] {
      SortMembersAscending(ms[1..]);
      forall x | x in SortMembers(ms[1..]) ensures x.key != ms[0].key {
        SortMembersHas(ms[1..], x);
      }
      InsertMemberAscending(ms[0], SortMembers(ms[1..]));
    }
  }

  /** Two ascending member lists with the same members are the same list. */
  lemma {:induction false} AscendingUnique(a: seq<Member>, b: seq<Member>)
    requires Ascending(a) && Ascending(b) && forall x :: x in a <==> x in b
    ensures a == b
  {
    if a != [] && b != [] {
      FirstIsLeast(a, b);
      forall x ensures x in a[1..] <==> x in b[1..] {
        RestOf(a, x);
        RestOf(b, x);
      }
      AscendingUnique(a[1..], b[1..]);
      assert a == [a[0]] + a[1..] && b == [b[0]] + b[1..];
    } else if a != [] {
      Inhabited(a);
    } else if b != [] {
      Inhabited(b);
    }
  }

  lemma Inhabited(a: seq<Member>)
    requires a != []
    ensures exists x :: x in a
  {
    assert a[0] in a;
  }

  lemma RestOf(a: seq<Member>, x: Member)
    requires a != [] && Ascending(a)
    ensures x in a[1..] <==> x in a && x != a[0]
  {
    forall i | 0 < i < |a| ensures a[i] != a[0] {
      BeforeTotal(a[0].key, a[i].key);
    }
  }

  lemma FirstIsLeast(a: seq<Member>, b: seq<Member>)
    requires a != [] && b != [] && Ascending(a) && Ascending(b) && forall x :: x in a <==> x in b
    ensures a[0] == b[0]
  {
    assert a[0] in a && b[0] in b;
    var i :| 0 <= i < |a| && a[i] == b[0];
    var j :| 0 <= j < |b| && b[j] == a[0];
    BeforeTotal(a[0].key, b[0].key);
  }

  // ------------------------------------------------------------ the normal form

  /** The document with every dictionary in key order. */
  function Normal(j: Json): Json {
    match j
    case Arr(items) => Arr(NormalItems(items))
    case Obj(ms) => Obj(SortMembers(NormalMembers(ms)))
    case _ => j
  }

  function NormalItems(items: seq<Json>): (r: seq<Json>)
    ensures |r| == |items|
    ensures forall i :: 0 <= i < |items| ==> r[i] == Normal(items[i])
  {
    if items == [] then [] else [Normal(items[0])] + NormalItems(items[1..])
  }

  function NormalMembers(ms: seq<Member>): (r: seq<Member>)
    ensures |r| == |ms|
    ensures forall i :: 0 <= i < |ms| ==> r[i] == Member(ms[i].key, Normal(ms[i].value))
  {
    if ms == [] then [] else [Member(ms[0].key, Normal(ms[0].value))] + NormalMembers(ms[1..])
  }

  /** canonical_bytes */
  function CanonicalText(j: Json): string { Print(Normal(Strip(j))) }

  /** Equal up to the order of keys in each dictionary. */
  ghost predicate Agree(a: Json, b: Json)
    decreases a
  {
    match a
    case Arr(xs) => b.Arr? && ItemsAgree(xs, b.items)
    case Obj(ms) => b.Obj? && MembersAgree(ms, b.members)
    case _ => a == b
  }

  ghost predicate ItemsAgree(xs: seq<Json>, ys: seq<Json>)
    decreases xs
  {
    |xs| == |ys| && forall i :: 0 <= i < |xs| ==> Agree(xs[i], ys[i])
  }

  ghost predicate MembersAgree(ms: seq<Member>, bs: seq<Member>)
    decreases ms, 1
  {
    && (forall i :: 0 <= i < |ms| ==> HasPartner(ms[i], bs))
    && (forall j :: 0 <= j < |bs| ==> IsPartner(ms, bs[j]))
  }

  /** Some member of bs has m's key and a value that agrees with m's. */
  ghost predicate HasPartner(m: Member, bs: seq<Member>)
    decreases m
  {
    exists j :: 0 <= j < |bs| && m.key == bs[j].key && Agree(m.value, bs[j].value)
  }

  ghost predicate IsPartner(ms: seq<Member>, b: Member)
    decreases ms, 0
  {
    exists i :: 0 <= i < |ms| && ms[i].key == b.key && Agree(ms[i].value, b.value)
  }

  /** Same normal form exactly when the documents agree. */
  lemma {:induction false} NormalIffAgree(a: Json, b: Json)
    requires Valid(a) && Valid(b)
    ensures Normal(a) == Normal(b) <==> Agree(a, b)
    decreases a
  {
    if a.Arr? && b.Arr? {
      ItemsNormalIffAgree(a.items, b.items);
    } else if a.Obj? && b.Obj? {
      MembersNormalIffAgree(a.members, b.members);
    } else {
      OtherKindsIff(a, b);
    }
  }

  lemma OtherKindsIff(a: Json, b: Json)
    requires !(a.Arr? && b.Arr?) && !(a.Obj? && b.Obj?)
    ensures Normal(a) == Normal(b) <==> Agree(a, b)
  {
  }

  lemma {:induction false} ItemsNormalIffAgree(xs: seq<Json>, ys: seq<Json>)
    requires forall i :: 0 <= i < |xs| ==> Valid(xs[i])
    requires forall i :: 0 <= i < |ys| ==> Valid(ys[i])
    ensures NormalItems(xs) == NormalItems(ys) <==> ItemsAgree(xs, ys)
    decreases xs
  {
    if |xs| == |ys| {
      forall i | 0 <= i < |xs| ensures Normal(xs[i]) == Normal(ys[i]) <==> Agree(xs[i], ys[i]) {
        NormalIffAgree(xs[i], ys[i]);
      }
    }
  }

  lemma {:induction false} PartnerIff(ms: seq<Member>, i: nat, bs: seq<Member>)
    requires i < |ms| && Valid(ms[i].value) && forall j :: 0 <= j < |bs| ==> Valid(bs[j].value)
    ensures Member(ms[i].key, Normal(ms[i].value)) in NormalMembers(bs) <==> HasPartner(ms[i], bs)
    decreases ms, 0
  {
    forall j | 0 <= j < |bs| ensures Normal(ms[i].value) == Normal(bs[j].value) <==> Agree(ms[i].value, bs[j].value) {
      NormalIffAgree(ms[i].value, bs[j].value);
    }
  }

  lemma {:induction false} IsPartnerIff(ms: seq<Member>, b: Member)
    requires Valid(b.value) && forall i :: 0 <= i < |ms| ==> Valid(ms[i].value)
    ensures Member(b.key, Normal(b.value)) in NormalMembers(ms) <==> IsPartner(ms, b)
    decreases ms, 0
  {
    forall i | 0 <= i < |ms| ensures Normal(ms[i].value) == Normal(b.value) <==> Agree(ms[i].value, b.value) {
      NormalIffAgree(ms[i].value, b.value);
    }
  }

  lemma {:induction false} MembersNormalIffAgree(ms: seq<Member>, bs: seq<Member>)
    requires Valid(Obj(ms)) && Valid(Obj(bs))
    ensures SortMembers(NormalMembers(ms)) == SortMembers(NormalMembers(bs)) <==> MembersAgree(ms, bs)
    decreases ms, 2
  {
    SortedEqualIff(NormalMembers(ms), NormalMembers(bs));
    SameElementsIff(NormalMembers(ms), NormalMembers(bs));
    SharedIffAgree(ms, bs);
  }

  ghost predicate AllIn(a: seq<Member>, b: seq<Member>) { forall i :: 0 <= i < |a| ==> a[i] in b }

  lemma {:induction false} SharedIffAgree(ms: seq<Member>, bs: seq<Member>)
    requires Valid(Obj(ms)) && Valid(Obj(bs))
    ensures AllIn(NormalMembers(ms), NormalMembers(bs)) && AllIn(NormalMembers(bs), NormalMembers(ms))
            <==> MembersAgree(ms, bs)
    decreases ms, 1
  {
    var na, nb := NormalMembers(ms), NormalMembers(bs);
    forall i | 0 <= i < |ms| ensures na[i] in nb <==> HasPartner(ms[i], bs) {
      PartnerIff(ms, i, bs);
    }
    forall j | 0 <= j < |bs| ensures nb[j] in na <==> IsPartner(ms, bs[j]) {
      IsPartnerIff(ms, bs[j]);
    }
  }

  lemma SameElementsIff(a: seq<Member>, b: seq<Member>)
    ensures (forall x :: x in a <==> x in b) <==> AllIn(a, b) && AllIn(b, a)
  {
  }

  lemma SortedEqualIff(a: seq<Member>, b: seq<Member>)
    requires DistinctKeys(a) && DistinctKeys(b)
    ensures SortMembers(a) == SortMembers(b) <==> forall x :: x in a <==> x in b
  {
    forall x ensures (x in SortMembers(a) <==> x in a) && (x in SortMembers(b) <==> x in b) {
      SortMembersHas(a, x);
      SortMembersHas(b, x);
    }
    if forall x :: x in a <==> x in b {
      SortMembersAscending(a);
      SortMembersAscending(b);
      AscendingUnique(SortMembers(a), SortMembers(b));
    }
  }

  // ------------------------------------------------------------ validity of the normal form

  lemma {:induction false} NormalKeepsValid(j: Json)
    requires Valid(j)
    ensures Valid(Normal(j))
    decreases j
  {
    match j
    case Arr(items) =>
      forall i | 0 <= i < |items| ensures Valid(NormalItems(items)[i]) {
        NormalKeepsValid(items[i]);
      }
    case Obj(ms) =>
      var ns := NormalMembers(ms);
      forall i | 0 <= i < |ms| ensures Valid(ns[i].value) {
        NormalKeepsValid(ms[i].value);
      }
      SortKeepsValid(ns);
    case _ =>
  }

  lemma SortKeepsValid(ns: seq<Member>)
    requires Valid(Obj(ns))
    ensures Valid(Obj(SortMembers(ns)))
  {
    var s := SortMembers(ns);
    SortMembersAscending(ns);
    forall i, j | 0 <= i < j < |s| ensures s[i].key != s[j].key {
      BeforeTotal(s[i].key, s[j].key);
    }
    forall i | 0 <= i < |s| ensures Valid(s[i].value) {
      SortMembersHas(ns, s[i]);
    }
  }

  // ------------------------------------------------------------ documents without split surrogate pairs

  /** No key and no string of the document holds a high surrogate directly before a low one. */
  ghost predicate PairFreeDoc(j: Json) {
    match j
    case Str(s) => PairFree(s)
    case Arr(items) => forall i :: 0 <= i < |items| ==> PairFreeDoc(items[i])
    case Obj(ms) => forall i :: 0 <= i < |ms| ==> PairFreeMember(ms[i])
    case _ => true
  }

  ghost predicate PairFreeMember(m: Member) { PairFree(m.key) && PairFreeDoc(m.value) }

  lemma {:induction false} JoinedDocIdentityIff(j: Json)
    ensures JoinedDoc(j) == j <==> PairFreeDoc(j)
    decreases j, 1
  {
    match j
    case Str(s) => JoinedIsIdentityIff(s);
    case Arr(items) => JoinedItemsIdentityIff(items);
    case Obj(ms) => JoinedMembersIdentityIff(ms);
    case _ =>
  }

  lemma {:induction false} JoinedItemsIdentityIff(items: seq<Json>)
    ensures JoinedItems(items) == items <==> forall i :: 0 <= i < |items| ==> PairFreeDoc(items[i])
    decreases items, 0
  {
    if items != [] {
      var first, rest := items[0], items[1..];
      assert items == [first] + rest;
      JoinedDocIdentityIff(first);
      JoinedItemsIdentityIff(rest);
      assert JoinedItems(items)[0] == JoinedDoc(first) && JoinedItems(items)[1..] == JoinedItems(rest);
      assert forall i :: 0 <= i < |rest| ==> items[i + 1] == rest[i];
    }
  }

  lemma {:induction false} JoinedMembersIdentityIff(ms: seq<Member>)
    ensures JoinedMembers(ms) == ms <==> forall i :: 0 <= i < |ms| ==> PairFreeMember(ms[i])
    decreases ms, 0
  {
    if ms != [] {
      var first, rest := ms[0], ms[1..];
      assert ms == [first] + rest;
      JoinedIsIdentityIff(first.key);
      JoinedDocIdentityIff(first.value);
      JoinedMembersIdentityIff(rest);
      assert JoinedMembers(ms)[0] == Member(Joined(first.key), JoinedDoc(first.value));
      assert JoinedMembers(ms)[1..] == JoinedMembers(rest);
      assert forall i :: 0 <= i < |rest| ==> ms[i + 1] == rest[i];
    }
  }

  /** Joining split pairs never changes the printed form. */
  lemma {:induction false} JoinedPrintsAlike(j: Json)
    ensures Print(JoinedDoc(j)) == Print(j)
    decreases j, 1
  {
    match j
    case Str(s) => JoinedEscapesAlike(s);
    case Arr(items) => JoinedItemsPrintAlike(items);
    case Obj(ms) => JoinedMembersPrintAlike(ms);
    case _ =>
  }

  lemma {:induction false} JoinedItemsPrintAlike(items: seq<Json>)
    ensures PrintItems(JoinedItems(items)) == PrintItems(items)
    decreases items, 0
  {
    if items != [] {
      JoinedPrintsAlike(items[0]);
      JoinedItemsPrintAlike(items[1..]);
      assert JoinedItems(items)[1..] == JoinedItems(items[1..]);
    }
  }

  lemma {:induction false} JoinedMembersPrintAlike(ms: seq<Member>)
    ensures PrintMembers(JoinedMembers(ms)) == PrintMembers(ms)
    decreases ms, 0
  {
    if ms != [] {
      JoinedEscapesAlike(ms[0].key);
      JoinedPrintsAlike(ms[0].value);
      JoinedMembersPrintAlike(ms[1..]);
      assert JoinedMembers(ms)[1..] == JoinedMembers(ms[1..]);
    }
  }

  lemma {:induction false} NormalPairFree(j: Json)
    ensures PairFreeDoc(Normal(j)) <==> PairFreeDoc(j)
    decreases j
  {
    match j
    case Arr(items) =>
      forall i | 0 <= i < |items| ensures PairFreeDoc(NormalItems(items)[i]) <==> PairFreeDoc(items[i]) {
        NormalPairFree(items[i]);
      }
    case Obj(ms) => NormalMembersPairFree(ms);
    case _ =>
  }

  lemma {:induction false} NormalMembersPairFree(ms: seq<Member>)
    ensures PairFreeDoc(Obj(SortMembers(NormalMembers(ms)))) <==> PairFreeDoc(Obj(ms))
    decreases ms
  {
    var ns := NormalMembers(ms);
    forall i | 0 <= i < |ms| ensures PairFreeMember(ns[i]) <==> PairFreeMember(ms[i]) {
      NormalPairFree(ms[i].value);
    }
    SortPairFree(ns);
  }

  lemma SortPairFree(ns: seq<Member>)
    ensures PairFreeDoc(Obj(SortMembers(ns))) <==> PairFreeDoc(Obj(ns))
  {
    var s := SortMembers(ns);
    forall i | 0 <= i < |s| ensures s[i] in ns {
      SortMembersHas(ns, s[i]);
    }
    forall i | 0 <= i < |ns| ensures ns[i] in s {
      SortMembersHas(ns, ns[i]);
    }
  }

  // ------------------------------------------------------------ what the canonical bytes determine

  /** The document the canonical bytes stand for. */
  function Meaning(j: Json): Json { JoinedDoc(Normal(Strip(j))) }

  /** A reader gets exactly that document back from the bytes and leaves nothing over. */
  lemma CanonicalRoundTrip(j: Json)
    requires Valid(j)
    ensures Read(CanonicalText(j)) == Some((Meaning(j), ""))
  {
    StripKeepsValid(j);
    NormalKeepsValid(Strip(j));
    RoundTrip(Normal(Strip(j)), "");
    assert CanonicalText(j) + "" == CanonicalText(j);
  }

  /** Equal bytes exactly when the documents stand for the same thing. */
  lemma CanonicalEqualIff(a: Json, b: Json)
    requires Valid(a) && Valid(b)
    ensures CanonicalText(a) == CanonicalText(b) <==> Meaning(a) == Meaning(b)
  {
    CanonicalRoundTrip(a);
    CanonicalRoundTrip(b);
    JoinedPrintsAlike(Normal(Strip(a)));
    JoinedPrintsAlike(Normal(Strip(b)));
  }

  /** The bytes read back as the sorted document itself exactly when no surrogate pair is split. */
  lemma CanonicalExactIff(j: Json)
    requires Valid(j)
    ensures Read(CanonicalText(j)) == Some((Normal(Strip(j)), "")) <==> PairFreeDoc(Strip(j))
  {
    CanonicalRoundTrip(j);
    JoinedDocIdentityIff(Normal(Strip(j)));
    NormalPairFree(Strip(j));
  }

  /** Equal bytes exactly when the documents agree up to comments and key order. */
  lemma CanonicalFaithful(a: Json, b: Json)
    requires Valid(a) && Valid(b)
    requires PairFreeDoc(Strip(a)) && PairFreeDoc(Strip(b))
    ensures CanonicalText(a) == CanonicalText(b) <==> Agree(Strip(a), Strip(b))
  {
    CanonicalEqualIff(a, b);
    JoinedDocIdentityIff(Normal(Strip(a)));
    JoinedDocIdentityIff(Normal(Strip(b)));
    NormalPairFree(Strip(a));
    NormalPairFree(Strip(b));
    StripKeepsValid(a);
    StripKeepsValid(b);
    NormalIffAgree(Strip(a), Strip(b));
  }

  /** Without that condition it fails: a split pair and the character it encodes give the same bytes. */
  lemma SplitPairIsAmbiguous()
    ensures var a, b := Str([0xD83D, 0xDE00]), Str([0x1F600]);
            Valid(a) && Valid(b) && CanonicalText(a) == CanonicalText(b) && !Agree(Strip(a), Strip(b))
  {
    var s: Text := [0xD83D, 0xDE00];
    JoinedEscapesAlike(s);
    assert Combine(s[0], s[1]) == 0x1F600;
    assert s[2..] == [];
  }

  /** Comments never reach the bytes. */
  lemma CommentsAreIgnored(j: Json)
    ensures CanonicalText(Strip(j)) == CanonicalText(j)
  {
    StripIdempotent(j);
  }

  // ------------------------------------------------------------ reloading a printed document

  /** No dictionary key of the document holds a high surrogate directly before a low one. */
  ghost predicate KeysPairFree(j: Json) {
    match j
    case Arr(items) => forall i :: 0 <= i < |items| ==> KeysPairFree(items[i])
    case Obj(ms) => forall i :: 0 <= i < |ms| ==> PairFree(ms[i].key) && KeysPairFree(ms[i].value)
    case _ => true
  }

  lemma {:induction false} StripKeepsKeysPairFree(j: Json)
    requires KeysPairFree(j)
    ensures KeysPairFree(Strip(j))
    decreases j, 1
  {
    match j
    case Arr(items) => StripItemsKeepKeys(items);
    case Obj(ms) => StripMembersKeepKeys(ms);
    case _ =>
  }

  lemma {:induction false} StripItemsKeepKeys(items: seq<Json>)
    requires KeysPairFree(Arr(items))
    ensures KeysPairFree(Arr(StripItems(items)))
    decreases items, 0
  {
    if items != [] {
      StripKeepsKeysPairFree(items[0]);
      StripItemsKeepKeys(items[1..]);
    }
  }

  lemma {:induction false} StripMembersKeepKeys(ms: seq<Member>)
    requires KeysPairFree(Obj(ms))
    ensures KeysPairFree(Obj(StripMembers(ms)))
    decreases ms, 0
  {
    if ms != [] {
      StripMembersKeepKeys(ms[1..]);
      StripKeepsKeysPairFree(ms[0].value);
    }
  }

  lemma CommentJoined(key: Text)
    ensures Comment(Joined(key)) <==> Comment(key)
  {
  }

  lemma StripMembersCons(m: Member, ms: seq<Member>)
    ensures StripMembers([m] + ms)
            == if Comment(m.key) then StripMembers(ms) else [Member(m.key, Strip(m.value))] + StripMembers(ms)
  {
    assert ([m] + ms)[1..] == ms;
  }

  lemma JoinedMembersCons(m: Member, ms: seq<Member>)
    ensures JoinedMembers([m] + ms) == [Member(Joined(m.key), JoinedDoc(m.value))] + JoinedMembers(ms)
  {
    assert ([m] + ms)[1..] == ms;
  }

  lemma {:induction false} StripCommutes(j: Json)
    ensures Strip(JoinedDoc(j)) == JoinedDoc(Strip(j))
    decreases j, 1
  {
    match j
    case Arr(items) => StripItemsCommutes(items);
    case Obj(ms) => StripMembersCommutes(ms);
    case _ =>
  }

  lemma {:induction false} StripItemsCommutes(items: seq<Json>)
    ensures StripItems(JoinedItems(items)) == JoinedItems(StripItems(items))
    decreases items, 0
  {
    if items != [] {
      StripCommutes(items[0]);
      StripItemsCommutes(items[1..]);
      assert JoinedItems(items)[1..] == JoinedItems(items[1..]);
      assert StripItems(items)[1..] == StripItems(items[1..]);
    }
  }

  lemma {:induction false} StripMembersCommutes(ms: seq<Member>)
    ensures StripMembers(JoinedMembers(ms)) == JoinedMembers(StripMembers(ms))
    decreases ms, 0
  {
    if ms != [] {
      var m, rest := ms[0], ms[1..];
      assert ms == [m] + rest;
      StripMembersCommutes(rest);
      StripCommutes(m.value);
      CommentJoined(m.key);
      StripMembersCons(m, rest);
      JoinedMembersCons(m, rest);
      StripMembersCons(Member(Joined(m.key), JoinedDoc(m.value)), JoinedMembers(rest));
      JoinedMembersCons(Member(m.key, Strip(m.value)), StripMembers(rest));
    }
  }

  lemma {:induction false} JoinedMembersAt(ms: seq<Member>, i: nat)
    requires i < |ms|
    ensures JoinedMembers(ms)[i] == Member(Joined(ms[i].key), JoinedDoc(ms[i].value))
  {
    if i > 0 {
      JoinedMembersAt(ms[1..], i - 1);
    }
  }

  lemma {:induction false} JoinedItemsAt(items: seq<Json>, i: nat)
    requires i < |items|
    ensures JoinedItems(items)[i] == JoinedDoc(items[i])
  {
    if i > 0 {
      JoinedItemsAt(items[1..], i - 1);
    }
  }

  ghost predicate PlainKeys(ms: seq<Member>) {
    forall i :: 0 <= i < |ms| ==> PairFree(ms[i].key)
  }

  function JoinedValue(m: Member): Member { Member(m.key, JoinedDoc(m.value)) }

  /** On plain keys only the values are joined. */
  lemma JoinedMembersOfPlain(ms: seq<Member>)
    requires PlainKeys(ms)
    ensures forall i :: 0 <= i < |ms| ==> JoinedMembers(ms)[i] == JoinedValue(ms[i])
  {
    forall i | 0 <= i < |ms| ensures JoinedMembers(ms)[i] == JoinedValue(ms[i]) {
      JoinedMembersAt(ms, i);
      JoinedIsIdentityIff(ms[i].key);
    }
  }

  lemma {:induction false} InsertCommutes(m: Member, ms: seq<Member>, js: seq<Member>)
    requires |js| == |ms| && forall i :: 0 <= i < |ms| ==> js[i] == JoinedValue(ms[i])
    ensures var r, t := InsertMember(m, ms), InsertMember(JoinedValue(m), js);
            |r| == |t| == |ms| + 1 && forall i :: 0 <= i < |r| ==> t[i] == JoinedValue(r[i])
  {
    if ms != [] {
      var n := |ms| - 1;
      InsertCommutes(m, ms[..n], js[..n]);
    }
  }

  lemma {:induction false} SortCommutes(ms: seq<Member>, js: seq<Member>)
    requires |js| == |ms| && forall i :: 0 <= i < |ms| ==> js[i] == JoinedValue(ms[i])
    ensures var r, t := SortMembers(ms), SortMembers(js);
            |r| == |t| == |ms| && forall i :: 0 <= i < |r| ==> t[i] == JoinedValue(r[i])
  {
    if ms != [] {
      SortCommutes(ms[1..], js[1..]);
      InsertCommutes(ms[0], SortMembers(ms[1..]), SortMembers(js[1..]));
    }
  }

  lemma {:induction false} NormalCommutes(j: Json)
    requires KeysPairFree(j)
    ensures Normal(JoinedDoc(j)) == JoinedDoc(Normal(j))
    decreases j
  {
    match j
    case Arr(items) =>
      forall i | 0 <= i < |items|
        ensures NormalItems(JoinedItems(items))[i] == JoinedItems(NormalItems(items))[i]
      {
        JoinedItemsAt(items, i);
        JoinedItemsAt(NormalItems(items), i);
        NormalCommutes(items[i]);
      }
    case Obj(ms) => NormalMembersCommute(ms);
    case _ =>
  }

  lemma {:induction false} NormalMembersCommute(ms: seq<Member>)
    requires KeysPairFree(Obj(ms))
    ensures SortMembers(NormalMembers(JoinedMembers(ms))) == JoinedMembers(SortMembers(NormalMembers(ms)))
    decreases ms
  {
    var ns, js := NormalMembers(ms), NormalMembers(JoinedMembers(ms));
    JoinedMembersOfPlain(ms);
    forall i | 0 <= i < |ms| ensures js[i] == JoinedValue(ns[i]) {
      NormalCommutes(ms[i].value);
    }
    SortCommutes(ns, js);
    SortKeepsPlain(ns);
    JoinedMembersOfPlain(SortMembers(ns));
  }

  lemma SortKeepsPlain(ns: seq<Member>)
    requires PlainKeys(ns)
    ensures PlainKeys(SortMembers(ns))
  {
    var s := SortMembers(ns);
    forall i | 0 <= i < |s| ensures PairFree(s[i].key) {
      SortMembersHas(ns, s[i]);
    }
  }

  /** A document with plain keys that was written and read back has the same canonical bytes. */
  lemma ReloadKeepsBytes(j: Json)
    requires KeysPairFree(j)
    ensures CanonicalText(JoinedDoc(j)) == CanonicalText(j)
  {
    StripCommutes(j);
    StripKeepsKeysPairFree(j);
    NormalCommutes(Strip(j));
    JoinedPrintsAlike(Normal(Strip(j)));
  }

  function Flag(key: Text): Member { Member(key, Null) }

  lemma StripFlags(a: Text, b: Text)
    requires !Comment(a) && !Comment(b)
    ensures StripMembers([Flag(a), Flag(b)]) == [Flag(a), Flag(b)]
  {
    StripOfPlain([Flag(a), Flag(b)]);
  }

  lemma SortFlags(a: Text, b: Text)
    ensures SortMembers([Flag(a), Flag(b)]) == if Before(b, a) then [Flag(b), Flag(a)] else [Flag(a), Flag(b)]
  {
    var ms, one := [Flag(a), Flag(b)], [Flag(b)];
    assert ms[1..] == one && one[1..] == [] && one[..0] == [];
    assert SortMembers(one) == one;
    assert InsertMember(Flag(a), one) == if Before(b, a) then one + [Flag(a)] else InsertMember(Flag(a), []) + one;
  }

  /** What a dictionary of two flags stands for. */
  lemma MeaningOfFlags(a: Text, b: Text)
    requires !Comment(a) && !Comment(b)
    ensures Meaning(Obj([Flag(a), Flag(b)]))
            == Obj(if Before(b, a) then [Flag(Joined(b)), Flag(Joined(a))] else [Flag(Joined(a)), Flag(Joined(b))])
  {
    StripFlags(a, b);
    assert NormalMembers([Flag(a), Flag(b)]) == [Flag(a), Flag(b)];
    SortFlags(a, b);
    JoinedFlags(a, b);
    JoinedFlags(b, a);
  }

  lemma JoinedFlags(a: Text, b: Text)
    ensures JoinedMembers([Flag(a), Flag(b)]) == [Flag(Joined(a)), Flag(Joined(b))]
  {
    JoinedMembersAt([Flag(a), Flag(b)], 0);
    JoinedMembersAt([Flag(a), Flag(b)], 1);
  }

  /** Without plain keys a reload can change the bytes: joining the first key moves it behind the second. */
  lemma ReloadCanReorder(a: Text, b: Text)
    requires Before(a, b) && Before(Joined(b), Joined(a)) && !Comment(a) && !Comment(b)
    requires !Comment(Joined(a)) && !Comment(Joined(b))
    requires Joined(Joined(a)) == Joined(a) && Joined(Joined(b)) == Joined(b)
    ensures var j := Obj([Flag(a), Flag(b)]);
            Valid(j) && CanonicalText(JoinedDoc(j)) != CanonicalText(j)
  {
    BeforeTotal(a, b);
    BeforeTotal(Joined(a), Joined(b));
    MeaningOfFlags(a, b);
    MeaningOfFlags(Joined(a), Joined(b));
    JoinedFlags(a, b);
    CanonicalEqualIff(Obj([Flag(a), Flag(b)]), Obj([Flag(Joined(a)), Flag(Joined(b))]));
  }

  /** Such keys exist. */
  lemma ReloadReordersAnExample()
    ensures var j := Obj([Flag([0xD83D, 0xDE00]), Flag([0xE000])]);
            Valid(j) && CanonicalText(JoinedDoc(j)) != CanonicalText(j)
  {
    var pair: Text, single: Text, other: Text := [0xD83D, 0xDE00], [0x1F600], [0xE000];
    assert Combine(0xD83D, 0xDE00) == 0x1F600 && pair[2..] == [];
    assert Joined(pair) == single;
    JoinedIsIdentityIff(single);
    JoinedIsIdentityIff(other);
    ReloadCanReorder(pair, other);
  }

  // ------------------------------------------------------------ exactly when a reload keeps the bytes

  /** Joining split pairs keeps the keys of a dictionary in their order. */
  ghost predicate KeepsOrder(ms: seq<Member>) {
    forall i, k :: 0 <= i < |ms| && 0 <= k < |ms| && Before(ms[i].key, ms[k].key) ==>
      Before(Joined(ms[i].key), Joined(ms[k].key))
  }

  /** So it does in every dictionary of the document. */
  ghost predicate OrderKept(j: Json) {
    match j
    case Arr(items) => forall i :: 0 <= i < |items| ==> OrderKept(items[i])
    case Obj(ms) => KeepsOrder(ms) && forall i :: 0 <= i < |ms| ==> OrderKept(ms[i].value)
    case _ => true
  }

  function JoinMember(m: Member): Member { Member(Joined(m.key), JoinedDoc(m.value)) }

  lemma {:induction false} JoinedMembersSnoc(ms: seq<Member>, m: Member)
    ensures JoinedMembers(ms + [m]) == JoinedMembers(ms) + [JoinMember(m)]
  {
    if ms == [] {
      assert [] + [m] == [m] + [];
      JoinedMembersCons(m, []);
    } else {
      assert ms + [m] == [ms[0]] + (ms[1..] + [m]) && ms == [ms[0]] + ms[1..];
      JoinedMembersCons(ms[0], ms[1..] + [m]);
      JoinedMembersCons(ms[0], ms[1..]);
      JoinedMembersSnoc(ms[1..], m);
    }
  }

  /** The key compares with m's as the joined keys do. */
  predicate ComparesAlike(x: Member, m: Member) { Before(x.key, m.key) <==> Before(Joined(x.key), Joined(m.key)) }

  lemma {:induction false} InsertJoins(m: Member, ms: seq<Member>)
    requires forall i :: 0 <= i < |ms| ==> ComparesAlike(ms[i], m)
    ensures InsertMember(JoinMember(m), JoinedMembers(ms)) == JoinedMembers(InsertMember(m, ms))
  {
    if ms == [] {
      JoinedMembersSnoc([], m);
      assert [] + [m] == [m];
    } else {
      var n := |ms| - 1;
      var init, last := ms[..n], ms[n];
      assert ms == init + [last] && ComparesAlike(last, m);
      JoinedMembersSnoc(init, last);
      assert JoinedMembers(ms)[..n] == JoinedMembers(init) && JoinedMembers(ms)[n] == JoinMember(last);
      if Before(last.key, m.key) {
        JoinedMembersSnoc(ms, m);
      } else {
        InsertJoins(m, init);
        JoinedMembersSnoc(InsertMember(m, init), last);
      }
    }
  }

  lemma AlikeIfKept(x: Member, m: Member)
    requires x.key != m.key
    requires Before(x.key, m.key) ==> Before(Joined(x.key), Joined(m.key))
    requires Before(m.key, x.key) ==> Before(Joined(m.key), Joined(x.key))
    ensures ComparesAlike(x, m)
  {
    BeforeTotal(x.key, m.key);
    BeforeTotal(Joined(x.key), Joined(m.key));
  }

  lemma {:induction false} SortJoins(ms: seq<Member>)
    requires DistinctKeys(ms) && KeepsOrder(ms)
    ensures SortMembers(JoinedMembers(ms)) == JoinedMembers(SortMembers(ms))
  {
    if ms != [] {
      var m, rest := ms[0], ms[1..];
      assert ms == [m] + rest;
      JoinedMembersCons(m, rest);
      SortJoins(rest);
      var sorted := SortMembers(rest);
      forall i | 0 <= i < |sorted| ensures ComparesAlike(sorted[i], m) {
        SortMembersHas(rest, sorted[i]);
        var k :| 0 <= k < |rest| && rest[k] == sorted[i];
        assert ms[k + 1] == sorted[i];
        AlikeIfKept(sorted[i], m);
      }
      InsertJoins(m, sorted);
    }
  }

  /** Normalising and joining commute exactly where the order of keys is kept. */
  lemma {:induction false} NormalJoinsIff(j: Json)
    requires Valid(j) && Valid(JoinedDoc(j))
    ensures Normal(JoinedDoc(j)) == JoinedDoc(Normal(j)) <==> OrderKept(j)
    decreases j, 1
  {
    match j
    case Arr(items) => ItemsJoinIff(items);
    case Obj(ms) => MembersJoinIff(ms);
    case _ =>
  }

  lemma {:induction false} ItemsJoinIff(items: seq<Json>)
    requires Valid(Arr(items)) && Valid(Arr(JoinedItems(items)))
    ensures NormalItems(JoinedItems(items)) == JoinedItems(NormalItems(items)) <==>
            forall i :: 0 <= i < |items| ==> OrderKept(items[i])
    decreases items, 0
  {
    var l, r := NormalItems(JoinedItems(items)), JoinedItems(NormalItems(items));
    forall i | 0 <= i < |items| ensures l[i] == r[i] <==> OrderKept(items[i]) {
      JoinedItemsAt(items, i);
      JoinedItemsAt(NormalItems(items), i);
      assert Valid(JoinedItems(items)[i]);
      NormalJoinsIff(items[i]);
    }
  }

  /** The values of the members commute one by one. */
  lemma {:induction false} ValuesJoinIff(ms: seq<Member>)
    requires Valid(Obj(ms)) && Valid(Obj(JoinedMembers(ms)))
    ensures var a, b := NormalMembers(JoinedMembers(ms)), NormalMembers(ms);
            && (forall i :: 0 <= i < |ms| ==> a[i].key == JoinMember(b[i]).key)
            && (forall i :: 0 <= i < |ms| ==> (a[i] == JoinMember(b[i]) <==> OrderKept(ms[i].value)))
    decreases ms, 0
  {
    forall i | 0 <= i < |ms|
      ensures NormalMembers(JoinedMembers(ms))[i] == JoinMember(NormalMembers(ms)[i]) <==> OrderKept(ms[i].value)
      ensures NormalMembers(JoinedMembers(ms))[i].key == JoinMember(NormalMembers(ms)[i]).key
    {
      JoinedMembersAt(ms, i);
      assert Valid(JoinedMembers(ms)[i].value);
      NormalJoinsIff(ms[i].value);
    }
  }

  lemma {:induction false} MembersJoinIff(ms: seq<Member>)
    requires Valid(Obj(ms)) && Valid(Obj(JoinedMembers(ms)))
    ensures SortMembers(NormalMembers(JoinedMembers(ms))) == JoinedMembers(SortMembers(NormalMembers(ms))) <==>
            OrderKept(Obj(ms))
    decreases ms, 1
  {
    var a, b := NormalMembers(JoinedMembers(ms)), NormalMembers(ms);
    ValuesJoinIff(ms);
    if OrderKept(Obj(ms)) {
      forall i | 0 <= i < |ms| ensures JoinedMembers(b)[i] == a[i] {
        JoinedMembersAt(b, i);
      }
      assert a == JoinedMembers(b);
      SortJoins(b);
    } else if SortMembers(a) == JoinedMembers(SortMembers(b)) {
      SortedOrderIsKept(a, b);
      forall i | 0 <= i < |ms| ensures OrderKept(ms[i].value) {
        SortedValueCommutes(a, b, i);
      }
      assert KeepsOrder(ms);
    }
  }

  lemma PlacesAscend(s: seq<Member>, p: nat, q: nat)
    requires Ascending(s) && p < |s| && q < |s| && Before(s[p].key, s[q].key)
    ensures p < q
  {
    BeforeTotal(s[p].key, s[q].key);
  }

  /** If sorting by joined keys gives the same order, joining keeps the order. */
  lemma SortedOrderIsKept(a: seq<Member>, b: seq<Member>)
    requires |a| == |b| && DistinctKeys(a) && DistinctKeys(b)
    requires SortMembers(a) == JoinedMembers(SortMembers(b))
    ensures KeepsOrder(b)
  {
    var s := SortMembers(b);
    SortMembersAscending(a);
    SortMembersAscending(b);
    forall i, k | 0 <= i < |b| && 0 <= k < |b| && Before(b[i].key, b[k].key)
      ensures Before(Joined(b[i].key), Joined(b[k].key))
    {
      SortMembersHas(b, b[i]);
      SortMembersHas(b, b[k]);
      var p :| 0 <= p < |s| && s[p] == b[i];
      var q :| 0 <= q < |s| && s[q] == b[k];
      PlacesAscend(s, p, q);
      JoinedMembersAt(s, p);
      JoinedMembersAt(s, q);
      assert Before(SortMembers(a)[p].key, SortMembers(a)[q].key);
    }
  }

  /** And every value is the joined one. */
  lemma SortedValueCommutes(a: seq<Member>, b: seq<Member>, i: nat)
    requires |a| == |b| && i < |a| && DistinctKeys(a) && forall k :: 0 <= k < |a| ==> a[k].key == JoinMember(b[k]).key
    requires SortMembers(a) == JoinedMembers(SortMembers(b))
    ensures a[i] == JoinMember(b[i])
  {
    var s := SortMembers(b);
    SortMembersHas(a, a[i]);
    var p :| 0 <= p < |s| && JoinedMembers(s)[p] == a[i];
    JoinedMembersAt(s, p);
    SortMembersHas(b, s[p]);
    var l :| 0 <= l < |b| && b[l] == s[p];
    assert a[l].key == a[i].key;
  }

  /** Text that was joined has nothing left to join. */
  lemma {:induction false} JoinedIsPairFree(s: Text)
    ensures PairFree(Joined(s)) && (Joined(s) != [] ==> s != [] && (Low(Joined(s)[0]) ==> Low(s[0])))
    decreases |s|
  {
    if |s| >= 2 && High(s[0]) && Low(s[1]) {
      JoinedIsPairFree(s[2..]);
      CombineIsNoSurrogate(s[0], s[1]);
    } else if s != [] {
      JoinedIsPairFree(s[1..]);
    }
  }

  lemma CombineIsNoSurrogate(hi: CodePoint, lo: CodePoint)
    requires High(hi) && Low(lo)
    ensures !High(Combine(hi, lo)) && !Low(Combine(hi, lo))
  {
  }

  lemma {:induction false} JoinedDocIsPairFree(j: Json)
    ensures PairFreeDoc(JoinedDoc(j))
    decreases j
  {
    match j
    case Str(s) => JoinedIsPairFree(s);
    case Arr(items) =>
      forall i | 0 <= i < |items| ensures PairFreeDoc(JoinedItems(items)[i]) {
        JoinedItemsAt(items, i);
        JoinedDocIsPairFree(items[i]);
      }
    case Obj(ms) =>
      forall i | 0 <= i < |ms| ensures PairFreeMember(JoinedMembers(ms)[i]) {
        JoinedMembersAt(ms, i);
        JoinedIsPairFree(ms[i].key);
        JoinedDocIsPairFree(ms[i].value);
      }
    case _ =>
  }

  /**
   * Exactly when a document that was written and read back has the same canonical bytes: when joining split pairs keeps
   * the keys of every dictionary in their order. Keys that become equal are one key to a reader, so they are ruled out.
   */
  lemma ReloadKeepsBytesIff(j: Json)
    requires Valid(j) && Valid(JoinedDoc(j))
    ensures CanonicalText(JoinedDoc(j)) == CanonicalText(j) <==> OrderKept(Strip(j))
  {
    var s := Strip(j);
    CanonicalEqualIff(JoinedDoc(j), j);
    StripCommutes(j);
    StripKeepsValid(j);
    StripKeepsValid(JoinedDoc(j));
    NormalJoinsIff(s);
    JoinedDocIsPairFree(s);
    NormalPairFree(JoinedDoc(s));
    JoinedDocIdentityIff(Normal(JoinedDoc(s)));
  }

  // ------------------------------------------------------------ dictionaries with known keys

  lemma {:induction false} StripOfPlain(ms: seq<Member>)
    requires forall i :: 0 <= i < |ms| ==> !Comment(ms[i].key)
    ensures |StripMembers(ms)| == |ms|
    ensures forall i :: 0 <= i < |ms| ==> StripMembers(ms)[i] == Member(ms[i].key, Strip(ms[i].value))
  {
    if ms != [] {
      StripOfPlain(ms[1..]);
    }
  }

  /** A dictionary with plain keys stands for its values, sorted by key. */
  lemma MeaningOfPlain(ms: seq<Member>, js: seq<Member>)
    requires PlainKeys(ms) && forall i :: 0 <= i < |ms| ==> !Comment(ms[i].key)
    requires |js| == |ms| && forall i :: 0 <= i < |ms| ==> js[i] == Member(ms[i].key, Meaning(ms[i].value))
    ensures Meaning(Obj(ms)) == Obj(SortMembers(js))
  {
    StripOfPlain(ms);
    SortedMeaning(NormalMembers(StripMembers(ms)), js);
  }

  lemma SortedMeaning(ns: seq<Member>, js: seq<Member>)
    requires PlainKeys(ns) && |js| == |ns| && forall i :: 0 <= i < |ns| ==> js[i] == JoinedValue(ns[i])
    ensures JoinedMembers(SortMembers(ns)) == SortMembers(js)
  {
    SortCommutes(ns, js);
    SortKeepsPlain(ns);
    JoinedMembersOfPlain(SortMembers(ns));
  }

  /** Two member lists with the same distinct keys at the same places sort alike only if they are equal. */
  lemma SortInjective(js: seq<Member>, ks: seq<Member>)
    requires DistinctKeys(js) && DistinctKeys(ks)
    requires |js| == |ks| && forall i :: 0 <= i < |js| ==> js[i].key == ks[i].key
    ensures SortMembers(js) == SortMembers(ks) <==> js == ks
  {
    SortedEqualIff(js, ks);
    if SortMembers(js) == SortMembers(ks) {
      forall i | 0 <= i < |js| ensures js[i] == ks[i] {
        assert js[i] in js;
        assert js[i] in ks;
      }
    }
  }
}
