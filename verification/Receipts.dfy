// agent/policy/receipt.py: what a receipt's hash is taken of, and what a verified chain binds.
// SHA-256 is any function with digests of 64 characters.
module Receipts {
  import opened Types
  import opened Text
  import opened Json
  import opened Canonical
  import opened Chain

  // ------------------------------------------------------------ decimal numbers

  function Digits(n: nat): (r: string)
    ensures r != "" && forall i :: 0 <= i < |r| ==> '0' <= r[i] <= '9'
  {
    if n < 10 then [HexDigit(n)] else Digits(n / 10) + [HexDigit(n % 10)]
  }

  function Decimal(n: int): (r: string)
    ensures NumText(r) && (r[0] == '-' <==> n < 0)
  {
    if n < 0 then "-" + Digits(-n) else Digits(n)
  }

  lemma {:induction false} DigitsInjective(m: nat, n: nat)
    requires Digits(m) == Digits(n)
    ensures m == n
  {
    var s, t := Digits(m), Digits(n);
    assert s[|s| - 1] == t[|t| - 1];
    HexRoundTrip(m % 10);
    HexRoundTrip(n % 10);
    if m >= 10 && n >= 10 {
      assert s[..|s| - 1] == Digits(m / 10) && t[..|t| - 1] == Digits(n / 10);
      DigitsInjective(m / 10, n / 10);
    }
  }

  lemma DecimalInjective(m: int, n: int)
    requires Decimal(m) == Decimal(n)
    ensures m == n
  {
    var s := Decimal(m);
    if m < 0 && n < 0 {
      assert s[1..] == Digits(-m) && s[1..] == Digits(-n);
      DigitsInjective(-m, -n);
    } else if m >= 0 && n >= 0 {
      DigitsInjective(m, n);
    }
  }

  // ------------------------------------------------------------ the hashed body

  function Ascii(s: string): (r: Text)
    requires forall i :: 0 <= i < |s| ==> s[i] as int < 128
    ensures |r| == |s| && forall i :: 0 <= i < |s| ==> r[i] == s[i] as int
  {
    seq(|s|, i requires 0 <= i < |s| => s[i] as int)
  }

  datatype Field = Index | Ts | PolicyHash | Kind | Chosen | Verdict | Reason | InputsDigest

  /** A field's name in the body; a plain word that is no comment. */
  function Name(f: Field): (r: Text)
    ensures !Comment(r) && PairFree(r)
  {
    Ascii(match f
          case Index => "seq"
          case Ts => "ts"
          case PolicyHash => "policy_hash"
          case Kind => "kind"
          case Chosen => "decision"
          case Verdict => "verdict"
          case Reason => "reason"
          case InputsDigest => "inputs_digest")
  }

  lemma NamesDiffer(f: Field, g: Field)
    requires f != g
    ensures Name(f) != Name(g)
  {
  }

  function ValueOf(r: Receipt, f: Field): Json {
    match f
    case Index => Num(Decimal(r.index))
    case Ts => Str(r.ts)
    case PolicyHash => Str(r.policyHash)
    case Kind => Str(r.kind)
    case Chosen => r.decision
    case Verdict => Str(r.verdict)
    case Reason => Str(r.reason)
    case InputsDigest => Str(r.inputsDigest)
  }

  function Place(f: Field): (i: nat)
    ensures i < 8
  {
    match f
    case Index => 0
    case Ts => 1
    case PolicyHash => 2
    case Kind => 3
    case Chosen => 4
    case Verdict => 5
    case Reason => 6
    case InputsDigest => 7
  }

  /** The order in which body() lists its fields. */
  function Nth(i: nat): (f: Field)
    requires i < 8
    ensures Place(f) == i
  {
    if i == 0 then Index else if i == 1 then Ts else if i == 2 then PolicyHash else if i == 3 then Kind
    else if i == 4 then Chosen else if i == 5 then Verdict else if i == 6 then Reason else InputsDigest
  }

  function Fields(r: Receipt): (ms: seq<Member>)
    ensures |ms| == 8 && forall i :: 0 <= i < 8 ==> ms[i] == Member(Name(Nth(i)), ValueOf(r, Nth(i)))
  {
    seq(8, i requires 0 <= i < 8 => Member(Name(Nth(i)), ValueOf(r, Nth(i))))
  }

  /** Receipt.body: everything but the two hashes. */
  function Body(r: Receipt): Json { Obj(Fields(r)) }

  lemma FieldNames(r: Receipt)
    ensures DistinctKeys(Fields(r))
  {
    forall i, j | 0 <= i < j < 8 ensures Fields(r)[i].key != Fields(r)[j].key {
      NamesDiffer(Nth(i), Nth(j));
    }
  }

  lemma BodyValid(r: Receipt)
    requires Valid(r.decision)
    ensures Valid(Body(r))
  {
    FieldNames(r);
  }

  // ------------------------------------------------------------ logs built by appending

  function BodyText(r: Receipt): string { CanonicalText(Body(r)) }

  /** The hashing the agent uses. */
  function Standard(sha: Digest): Scheme { Scheme(sha, BodyText) }

  lemma HashIsIgnored(r: Receipt, h: string)
    ensures Fields(r.(hash := h)) == Fields(r)
  {
  }

  lemma ReloadedFields(r: Receipt)
    requires KeysPairFree(r.decision)
    ensures JoinedMembers(Fields(r)) == Fields(Reloaded(r))
  {
    JoinedMembersOfPlain(Fields(r));
    forall i | 0 <= i < 8 ensures Fields(Reloaded(r))[i] == JoinedValue(Fields(r)[i]) {
      ReloadedField(r, Nth(i));
    }
  }

  lemma BodyKeysPairFree(r: Receipt)
    requires KeysPairFree(r.decision)
    ensures KeysPairFree(Body(r))
  {
    forall i | 0 <= i < 8 ensures KeysPairFree(Fields(r)[i].value) {
      assert Fields(r)[i].value == ValueOf(r, Nth(i));
    }
  }

  lemma ReloadedField(r: Receipt, f: Field)
    ensures ValueOf(Reloaded(r), f) == JoinedDoc(ValueOf(r, f))
  {
  }

  /** Writing a receipt to the file and reading it back leaves the text of its body as it was. */
  lemma ReloadKeepsText(r: Receipt)
    requires KeysPairFree(r.decision)
    ensures BodyText(Reloaded(r)) == BodyText(r)
  {
    ReloadedFields(r);
    BodyKeysPairFree(r);
    ReloadKeepsBytes(Body(r));
  }

  lemma DraftIsRobust(sha: Digest, draft: Receipt)
    requires KeysPairFree(draft.decision)
    ensures Robust(Standard(sha), draft)
  {
    forall next, prev, hash
      ensures SurvivesReload(Standard(sha), draft.(index := next, prevHash := prev), hash)
    {
      var r := draft.(index := next, prevHash := prev);
      ReloadKeepsText(r.(hash := hash));
      HashIsIgnored(r, hash);
    }
  }

  /** Every log built by appending to an empty one verifies, and its receipts are numbered from zero. */
  lemma AppendedLogsVerify(sha: Digest, drafts: seq<Receipt>)
    requires forall i :: 0 <= i < |drafts| ==> KeysPairFree(drafts[i].decision)
    ensures Intact(Standard(sha), Grown(Standard(sha), drafts)) && Contiguous(Grown(Standard(sha), drafts))
  {
    forall i | 0 <= i < |drafts| ensures Robust(Standard(sha), drafts[i]) {
      DraftIsRobust(sha, drafts[i]);
    }
    GrownIsIntact(Standard(sha), drafts);
    GrownIsContiguous(Standard(sha), drafts);
  }

  /** Verification does not look at the numbering: a log that starts at any number verifies. */
  lemma NumberingIsNotVerified(sha: Digest, draft: Receipt, n: int)
    ensures var r := draft.(index := n, prevHash := Genesis());
            Intact(Standard(sha), [r.(hash := ComputeHash(Standard(sha), r))])
  {
    var r := draft.(index := n, prevHash := Genesis());
    HashIsIgnored(r, ComputeHash(Standard(sha), r));
  }

  // ------------------------------------------------------------ what equal bodies mean

  /** Every field of the two receipts stands for the same thing. */
  ghost predicate SameFields(a: Receipt, b: Receipt) {
    && a.index == b.index
    && Joined(a.ts) == Joined(b.ts)
    && Joined(a.policyHash) == Joined(b.policyHash)
    && Joined(a.kind) == Joined(b.kind)
    && Meaning(a.decision) == Meaning(b.decision)
    && Joined(a.verdict) == Joined(b.verdict)
    && Joined(a.reason) == Joined(b.reason)
    && Joined(a.inputsDigest) == Joined(b.inputsDigest)
  }

  function FieldMeanings(r: Receipt): (js: seq<Member>)
    ensures |js| == 8 && forall i :: 0 <= i < 8 ==> js[i] == Member(Name(Nth(i)), Meaning(ValueOf(r, Nth(i))))
  {
    seq(8, i requires 0 <= i < 8 => Member(Name(Nth(i)), Meaning(ValueOf(r, Nth(i)))))
  }

  lemma MeaningOfBody(r: Receipt)
    ensures Meaning(Body(r)) == Obj(SortMembers(FieldMeanings(r))) && DistinctKeys(FieldMeanings(r))
  {
    MeaningOfPlain(Fields(r), FieldMeanings(r));
    FieldNames(r);
  }

  predicate SameMeaning(a: Receipt, b: Receipt, f: Field) { Meaning(ValueOf(a, f)) == Meaning(ValueOf(b, f)) }

  lemma MeaningOfField(a: Receipt, b: Receipt, f: Field)
    ensures SameMeaning(a, b, f) <==>
            match f
            case Index => a.index == b.index
            case Ts => Joined(a.ts) == Joined(b.ts)
            case PolicyHash => Joined(a.policyHash) == Joined(b.policyHash)
            case Kind => Joined(a.kind) == Joined(b.kind)
            case Chosen => Meaning(a.decision) == Meaning(b.decision)
            case Verdict => Joined(a.verdict) == Joined(b.verdict)
            case Reason => Joined(a.reason) == Joined(b.reason)
            case InputsDigest => Joined(a.inputsDigest) == Joined(b.inputsDigest)
  {
    if f == Index && Decimal(a.index) == Decimal(b.index) {
      DecimalInjective(a.index, b.index);
    }
  }

  lemma SameFieldsIffMeanings(a: Receipt, b: Receipt)
    ensures SameFields(a, b) <==> forall f: Field :: SameMeaning(a, b, f)
  {
    forall f: Field ensures SameFields(a, b) ==> SameMeaning(a, b, f) {
      MeaningOfField(a, b, f);
    }
    MeaningOfField(a, b, Index);
    MeaningOfField(a, b, Ts);
    MeaningOfField(a, b, PolicyHash);
    MeaningOfField(a, b, Kind);
    MeaningOfField(a, b, Chosen);
    MeaningOfField(a, b, Verdict);
    MeaningOfField(a, b, Reason);
    MeaningOfField(a, b, InputsDigest);
  }

  lemma FieldMeaningsEqualIff(a: Receipt, b: Receipt)
    ensures FieldMeanings(a) == FieldMeanings(b) <==> forall f: Field :: SameMeaning(a, b, f)
  {
    if FieldMeanings(a) == FieldMeanings(b) {
      forall f: Field ensures SameMeaning(a, b, f) {
        assert FieldMeanings(a)[Place(f)] == FieldMeanings(b)[Place(f)] && Nth(Place(f)) == f;
      }
    }
    if forall f: Field :: SameMeaning(a, b, f) {
      forall i | 0 <= i < 8 ensures FieldMeanings(a)[i] == FieldMeanings(b)[i] {
        assert SameMeaning(a, b, Nth(i));
      }
    }
  }

  /** The hashed text of a body determines every field, and nothing but the fields. */
  lemma TextDeterminesFields(a: Receipt, b: Receipt)
    requires Valid(a.decision) && Valid(b.decision)
    ensures BodyText(a) == BodyText(b) <==> SameFields(a, b)
  {
    BodyValid(a);
    BodyValid(b);
    CanonicalEqualIff(Body(a), Body(b));
    MeaningOfBody(a);
    MeaningOfBody(b);
    SortInjective(FieldMeanings(a), FieldMeanings(b));
    FieldMeaningsEqualIff(a, b);
    SameFieldsIffMeanings(a, b);
  }

  ghost predicate ValidLog(log: seq<Receipt>) {
    forall i :: 0 <= i < |log| ==> Valid(log[i].decision)
  }

  /** One published final hash commits to the length of the log and to every field of every receipt. */
  lemma FinalHashCommits(sha: Digest, a: seq<Receipt>, b: seq<Receipt>)
    requires ValidLog(a) && ValidLog(b)
    requires Intact(Standard(sha), a) && Intact(Standard(sha), b) && Tip(a) == Tip(b)
    ensures || (|a| == |b| && forall i :: 0 <= i < |a| ==> SameFields(a[i], b[i]))
            || Clash(Standard(sha), a, b)
  {
    FinalHashBinds(Standard(sha), a, b);
    if SameBodies(Standard(sha), a, b) {
      forall i | 0 <= i < |a| ensures SameFields(a[i], b[i]) {
        assert Standard(sha).text(a[i]) == Standard(sha).text(b[i]);
        TextDeterminesFields(a[i], b[i]);
      }
    }
  }

  /** Changing any field of one receipt of a verified log is found at that receipt, unless the two texts collide. */
  lemma ChangedFieldIsFound(sha: Digest, log: seq<Receipt>, at: nat, forged: Receipt)
    requires at < |log| && Intact(Standard(sha), log)
    requires Valid(log[at].decision) && Valid(forged.decision)
    requires forged.prevHash == log[at].prevHash && forged.hash == log[at].hash
    requires !SameFields(forged, log[at])
    ensures BreaksAt(Standard(sha), log[at := forged], at) <==>
            !Collide(sha, Hashed(Standard(sha), forged), Hashed(Standard(sha), log[at]))
    ensures Intact(Standard(sha), log[at := forged]) <==>
            Collide(sha, Hashed(Standard(sha), forged), Hashed(Standard(sha), log[at]))
  {
    TextDeterminesFields(forged, log[at]);
    ChangedBodyIsFound(Standard(sha), log, at, forged);
  }

  /** With no split surrogate pairs, standing for the same thing is being the same up to comments and key order. */
  lemma SameFieldsIff(a: Receipt, b: Receipt)
    requires Valid(a.decision) && Valid(b.decision)
    requires PairFreeDoc(Strip(a.decision)) && PairFreeDoc(Strip(b.decision))
    requires forall f: Field :: f != Chosen ==> PairFreeDoc(ValueOf(a, f)) && PairFreeDoc(ValueOf(b, f))
    ensures SameFields(a, b) <==>
            && a.index == b.index && a.ts == b.ts && a.policyHash == b.policyHash && a.kind == b.kind
            && a.verdict == b.verdict && a.reason == b.reason && a.inputsDigest == b.inputsDigest
            && Agree(Strip(a.decision), Strip(b.decision))
  {
    CanonicalEqualIff(a.decision, b.decision);
    CanonicalFaithful(a.decision, b.decision);
    forall f: Field | f != Chosen
      ensures JoinedDoc(ValueOf(a, f)) == ValueOf(a, f) && JoinedDoc(ValueOf(b, f)) == ValueOf(b, f)
    {
      JoinedDocIdentityIff(ValueOf(a, f));
      JoinedDocIdentityIff(ValueOf(b, f));
    }
    PlainTexts(a);
    PlainTexts(b);
  }

  lemma PlainTexts(r: Receipt)
    requires forall f: Field :: f != Chosen ==> JoinedDoc(ValueOf(r, f)) == ValueOf(r, f)
    ensures Joined(r.ts) == r.ts && Joined(r.policyHash) == r.policyHash && Joined(r.kind) == r.kind
    ensures Joined(r.verdict) == r.verdict && Joined(r.reason) == r.reason && Joined(r.inputsDigest) == r.inputsDigest
  {
    assert ValueOf(r, Ts) == Str(r.ts);
    assert ValueOf(r, PolicyHash) == Str(r.policyHash);
    assert ValueOf(r, Kind) == Str(r.kind);
    assert ValueOf(r, Verdict) == Str(r.verdict);
    assert ValueOf(r, Reason) == Str(r.reason);
    assert ValueOf(r, InputsDigest) == Str(r.inputsDigest);
  }

  // ------------------------------------------------------------ the policy hash

  /** policy_hash, and digest */
  function HashOfPolicy(sha: Digest, config: Json): string { "sha256:" + sha(CanonicalText(config)) }

  /**
   * Two configurations have the same policy hash exactly when they stand for the same thing, or their texts collide.
   */
  lemma PolicyHashCommits(sha: Digest, a: Json, b: Json)
    requires Valid(a) && Valid(b)
    ensures HashOfPolicy(sha, a) == HashOfPolicy(sha, b) <==>
            Meaning(a) == Meaning(b) || Collide(sha, CanonicalText(a), CanonicalText(b))
  {
    CanonicalEqualIff(a, b);
    if HashOfPolicy(sha, a) == HashOfPolicy(sha, b) {
      SameSplit("sha256:", "sha256:", sha(CanonicalText(a)), sha(CanonicalText(b)));
    }
  }
}
