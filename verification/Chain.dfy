// agent/policy/receipt.py: the append-only chain and its verification, for any way of hashing a receipt.
module Chain {
  import opened Types
  import opened Text
  import opened Json
  import opened Canonical

  /** sha256_hex: any function to 64 characters; nothing is supposed about collisions. */
  type Digest = f: string -> string | forall x :: |f(x)| == 64 witness _ => Zeros()

  function Zeros(): (z: string)
    ensures |z| == 64
  {
    seq(64, _ => '0')
  }

  function Genesis(): (g: string)
    ensures |g| == 71
  {
    "sha256:" + Zeros()
  }

  datatype Receipt = Receipt(
    index: int,
    ts: Text,
    policyHash: Text,
    kind: Text,
    decision: Json,
    verdict: Text,
    reason: Text,
    inputsDigest: Text,
    prevHash: string,
    hash: string)

  /** How receipts are hashed: the digest, and the text of a receipt's body. */
  datatype Scheme = Scheme(sha: Digest, text: Receipt -> string)

  /** The bytes a receipt's hash is taken of. */
  function Hashed(w: Scheme, r: Receipt): string { r.prevHash + w.text(r) }

  /** Receipt.compute_hash */
  function ComputeHash(w: Scheme, r: Receipt): (h: string)
    ensures |h| == 71
  {
    "sha256:" + w.sha(Hashed(w, r))
  }

  // ------------------------------------------------------------ the chain

  /** The hash the next receipt has to name as its predecessor. */
  function Tip(log: seq<Receipt>): string { HashBefore(log, |log|) }

  /** The hash receipt i has to name. */
  function HashBefore(log: seq<Receipt>, i: nat): string
    requires i <= |log|
  {
    if i == 0 then Genesis() else log[i - 1].hash
  }

  /** Receipt i names its predecessor's hash and stores its own. */
  predicate Linked(w: Scheme, log: seq<Receipt>, i: nat)
    requires i < |log|
  {
    log[i].prevHash == HashBefore(log, i) && log[i].hash == ComputeHash(w, log[i])
  }

  ghost predicate LinkedUpTo(w: Scheme, log: seq<Receipt>, n: nat)
    requires n <= |log|
  {
    forall i :: 0 <= i < n ==> Linked(w, log, i)
  }

  ghost predicate Intact(w: Scheme, log: seq<Receipt>) { LinkedUpTo(w, log, |log|) }

  /** Receipt i carries the expected policy hash, if one is expected. */
  predicate CarriesPolicy(log: seq<Receipt>, i: nat, expected: Option<Text>)
    requires i < |log|
  {
    expected.Some? ==> log[i].policyHash == expected.value
  }

  ghost predicate AllCarry(log: seq<Receipt>, n: nat, expected: Option<Text>)
    requires n <= |log|
  {
    forall i :: 0 <= i < n ==> CarriesPolicy(log, i, expected)
  }

  /** The first receipt that is not linked. */
  ghost predicate BreaksAt(w: Scheme, log: seq<Receipt>, at: nat) {
    at < |log| && !Linked(w, log, at) && LinkedUpTo(w, log, at)
  }

  datatype Why = PrevHashMismatch | HashMismatch

  datatype Report = Unbroken(count: nat, policyOk: bool) | Broken(count: nat, at: nat, why: Why)

  /** The walk along the links, which stops at the first fault. */
  method WalkLinks(w: Scheme, records: seq<Receipt>) returns (at: nat, fault: Option<Why>)
    ensures fault.None? <==> Intact(w, records)
    ensures fault.Some? ==>
              && BreaksAt(w, records, at)
              && (fault.value.PrevHashMismatch? <==> records[at].prevHash != HashBefore(records, at))
  {
    var prev := Genesis();
    at := 0;
    while at < |records|
      invariant 0 <= at <= |records| && prev == HashBefore(records, at)
      invariant LinkedUpTo(w, records, at)
    {
      var rec := records[at];
      if rec.prevHash != prev {
        assert !Linked(w, records, at);
        return at, Some(PrevHashMismatch);
      }
      if ComputeHash(w, rec) != rec.hash {
        assert !Linked(w, records, at);
        return at, Some(HashMismatch);
      }
      prev := rec.hash;
      at := at + 1;
    }
    fault := None;
  }

  /** The walk along the policy hashes. */
  method WalkPolicy(records: seq<Receipt>, expected: Option<Text>) returns (ok: bool)
    ensures ok == AllCarry(records, |records|, expected)
  {
    ok := true;
    for i := 0 to |records|
      invariant ok == AllCarry(records, i, expected)
    {
      if !CarriesPolicy(records, i, expected) {
        ok := false;
      }
    }
  }

  /** verify_chain, which walks along links and policy hashes at once. */
  method VerifyChain(w: Scheme, records: seq<Receipt>, expected: Option<Text>) returns (report: Report)
    ensures report.count == |records|
    ensures report.Unbroken? <==> Intact(w, records)
    ensures report.Unbroken? ==> report.policyOk == AllCarry(records, |records|, expected)
    ensures report.Broken? ==>
              && BreaksAt(w, records, report.at)
              && (report.why.PrevHashMismatch? <==> records[report.at].prevHash != HashBefore(records, report.at))
  {
    var at, fault := WalkLinks(w, records);
    if fault.Some? {
      return Broken(|records|, at, fault.value);
    }
    var policyOk := WalkPolicy(records, expected);
    report := Unbroken(|records|, policyOk);
  }

  // ------------------------------------------------------------ building a log

  /** A receipt as it is read back from its line of the file. */
  function Reloaded(r: Receipt): Receipt {
    r.(ts := Joined(r.ts), policyHash := Joined(r.policyHash), kind := Joined(r.kind),
       decision := JoinedDoc(r.decision), verdict := Joined(r.verdict), reason := Joined(r.reason),
       inputsDigest := Joined(r.inputsDigest))
  }

  /** The receipt append makes of its arguments, here the text and decision fields of a draft. */
  function Issued(w: Scheme, log: seq<Receipt>, draft: Receipt): Receipt {
    var next := if log == [] then 0 else log[|log| - 1].index + 1;
    var r := draft.(index := next, prevHash := Tip(log));
    r.(hash := ComputeHash(w, r))
  }

  function Appended(w: Scheme, log: seq<Receipt>, draft: Receipt): seq<Receipt> {
    log + [Reloaded(Issued(w, log, draft))]
  }

  /** The log after appending all drafts to an empty one. */
  function Grown(w: Scheme, drafts: seq<Receipt>): (log: seq<Receipt>)
    ensures |log| == |drafts|
  {
    if drafts == [] then []
    else Appended(w, Grown(w, drafts[..|drafts| - 1]), drafts[|drafts| - 1])
  }

  ghost predicate Contiguous(log: seq<Receipt>) {
    forall i :: 0 <= i < |log| ==> log[i].index == i
  }

  /** The append-only log. */
  class ReceiptChain {
    var log: seq<Receipt>

    constructor ()
      ensures log == []
    {
      log := [];
    }

    /** ReceiptChain.head */
    method Head() returns (next: int, prev: string)
      ensures prev == Tip(log)
      ensures next == if log == [] then 0 else log[|log| - 1].index + 1
      ensures Contiguous(log) ==> next == |log|
    {
      if log == [] {
        return 0, Genesis();
      }
      var last := log[|log| - 1];
      return last.index + 1, last.hash;
    }

    /** ReceiptChain.append */
    method Append(w: Scheme, draft: Receipt) returns (r: Receipt)
      modifies this
      ensures r == Issued(w, old(log), draft)
      ensures log == Appended(w, old(log), draft)
      ensures forall i :: 0 <= i < |old(log)| ==> log[i] == old(log)[i]
      ensures old(Contiguous(log)) ==> Contiguous(log)
    {
      var next, prev := Head();
      r := draft.(index := next, prevHash := prev);
      r := r.(hash := ComputeHash(w, r));
      log := log + [Reloaded(r)];
    }
  }

  lemma AppendKeepsIntact(w: Scheme, log: seq<Receipt>, r: Receipt)
    requires Intact(w, log) && r.prevHash == Tip(log) && r.hash == ComputeHash(w, r)
    ensures Intact(w, log + [r])
  {
    var after := log + [r];
    forall i | 0 <= i < |after| ensures Linked(w, after, i) {
      if i < |log| {
        assert Linked(w, log, i);
        assert after[..i] == log[..i];
      } else {
        assert after[..i] == log;
      }
    }
  }

  lemma {:induction false} GrownIsContiguous(w: Scheme, drafts: seq<Receipt>)
    ensures Contiguous(Grown(w, drafts))
  {
    if drafts != [] {
      GrownIsContiguous(w, drafts[..|drafts| - 1]);
    }
  }

  /** The text of the body does not depend on the stored hash or on the reload. */
  predicate SurvivesReload(w: Scheme, r: Receipt, hash: string) {
    w.text(Reloaded(r.(hash := hash))) == w.text(r)
  }

  ghost predicate Robust(w: Scheme, draft: Receipt) {
    forall next, prev, hash :: SurvivesReload(w, draft.(index := next, prevHash := prev), hash)
  }

  lemma {:induction false} GrownIsIntact(w: Scheme, drafts: seq<Receipt>)
    requires forall i :: 0 <= i < |drafts| ==> Robust(w, drafts[i])
    ensures Intact(w, Grown(w, drafts))
  {
    if drafts != [] {
      var n := |drafts| - 1;
      var log := Grown(w, drafts[..n]);
      GrownIsIntact(w, drafts[..n]);
      assert Robust(w, drafts[n]);
      var r := Issued(w, log, drafts[n]);
      assert SurvivesReload(w, drafts[n].(index := r.index, prevHash := r.prevHash), r.hash);
      AppendKeepsIntact(w, log, Reloaded(r));
    }
  }

  // ------------------------------------------------------------ what a verified log commits to

  /** Every prefix of a verified log is a verified log. */
  lemma PrefixIsIntact(w: Scheme, log: seq<Receipt>, n: nat)
    requires n <= |log| && Intact(w, log)
    ensures Intact(w, log[..n])
  {
    forall i | 0 <= i < n ensures Linked(w, log[..n], i) {
      assert Linked(w, log, i);
      assert log[..n][..i] == log[..i];
    }
  }

  /** Two different texts with the same digest. */
  predicate Collide(sha: Digest, x: string, y: string) { x != y && sha(x) == sha(y) }

  /** The two logs together exhibit a collision, or a text whose digest is all zeros. */
  ghost predicate Clash(w: Scheme, a: seq<Receipt>, b: seq<Receipt>) {
    || (exists i, j :: 0 <= i < |a| && 0 <= j < |b| && Collide(w.sha, Hashed(w, a[i]), Hashed(w, b[j])))
    || (exists i :: 0 <= i < |a| && w.sha(Hashed(w, a[i])) == Zeros())
    || (exists j :: 0 <= j < |b| && w.sha(Hashed(w, b[j])) == Zeros())
  }

  lemma SameSplit(a: string, b: string, x: string, y: string)
    requires |a| == |b| && a + x == b + y
    ensures a == b && x == y
  {
    assert (a + x)[..|a|] == a && (b + y)[..|b|] == b;
    assert (a + x)[|a|..] == x && (b + y)[|b|..] == y;
  }

  lemma TipLength(w: Scheme, log: seq<Receipt>)
    requires Intact(w, log)
    ensures |Tip(log)| == 71
  {
    if log != [] {
      assert Linked(w, log, |log| - 1);
    }
  }

  lemma LastLink(w: Scheme, a: seq<Receipt>)
    requires a != [] && Intact(w, a)
    ensures var m := |a| - 1;
            && Tip(a) == "sha256:" + w.sha(Hashed(w, a[m]))
            && Hashed(w, a[m]) == Tip(a[..m]) + w.text(a[m])
            && Intact(w, a[..m]) && |Tip(a[..m])| == 71
  {
    var m := |a| - 1;
    assert Linked(w, a, m);
    PrefixIsIntact(w, a, m);
    TipLength(w, a[..m]);
  }

  /** Both logs bind the same sequence of bodies. */
  ghost predicate SameBodies(w: Scheme, a: seq<Receipt>, b: seq<Receipt>) {
    |a| == |b| && forall i :: 0 <= i < |a| ==> w.text(a[i]) == w.text(b[i])
  }

  /** Two verified logs with the same final hash bind the same bodies, unless they exhibit a broken digest. */
  lemma {:induction false} FinalHashBinds(w: Scheme, a: seq<Receipt>, b: seq<Receipt>)
    requires Intact(w, a) && Intact(w, b) && Tip(a) == Tip(b)
    ensures SameBodies(w, a, b) || Clash(w, a, b)
    decreases |a|
  {
    if a == [] || b == [] {
      EmptyBinds(w, a, b);
    } else if !Clash(w, a, b) {
      var m, n := |a| - 1, |b| - 1;
      LastPairBinds(w, a, b);
      FinalHashBinds(w, a[..m], b[..n]);
      LastPairExtends(w, a, b);
    }
  }

  lemma LastPairExtends(w: Scheme, a: seq<Receipt>, b: seq<Receipt>)
    requires a != [] && b != [] && w.text(a[|a| - 1]) == w.text(b[|b| - 1])
    requires SameBodies(w, a[..|a| - 1], b[..|b| - 1]) || Clash(w, a[..|a| - 1], b[..|b| - 1])
    ensures SameBodies(w, a, b) || Clash(w, a, b)
  {
    if Clash(w, a[..|a| - 1], b[..|b| - 1]) {
    } else {
      SameBodiesExtend(w, a, b);
    }
  }

  lemma SameBodiesExtend(w: Scheme, a: seq<Receipt>, b: seq<Receipt>)
    requires a != [] && b != [] && SameBodies(w, a[..|a| - 1], b[..|b| - 1])
    requires w.text(a[|a| - 1]) == w.text(b[|b| - 1])
    ensures SameBodies(w, a, b)
  {
    var m := |a| - 1;
    forall i | 0 <= i < m ensures w.text(a[i]) == w.text(b[i]) {
      assert a[..m][i] == a[i] && b[..m][i] == b[i];
    }
  }

  /** Only the empty log ends in the genesis hash, unless some digest is all zeros. */
  lemma EmptyBinds(w: Scheme, a: seq<Receipt>, b: seq<Receipt>)
    requires a == [] || b == []
    requires Intact(w, a) && Intact(w, b) && Tip(a) == Tip(b)
    ensures SameBodies(w, a, b) || Clash(w, a, b)
  {
    if a != [] {
      LastLink(w, a);
      SameSplit("sha256:", "sha256:", w.sha(Hashed(w, a[|a| - 1])), Zeros());
    } else if b != [] {
      LastLink(w, b);
      SameSplit("sha256:", "sha256:", w.sha(Hashed(w, b[|b| - 1])), Zeros());
    }
  }

  /** The last receipts of both logs bind the same body and the same predecessor, or collide. */
  lemma LastPairBinds(w: Scheme, a: seq<Receipt>, b: seq<Receipt>)
    requires a != [] && b != []
    requires Intact(w, a) && Intact(w, b) && Tip(a) == Tip(b)
    ensures var m, n := |a| - 1, |b| - 1;
            || Clash(w, a, b)
            || (&& Intact(w, a[..m]) && Intact(w, b[..n]) && Tip(a[..m]) == Tip(b[..n])
                && w.text(a[m]) == w.text(b[n]))
  {
    var m, n := |a| - 1, |b| - 1;
    LastLink(w, a);
    LastLink(w, b);
    SameSplit("sha256:", "sha256:", w.sha(Hashed(w, a[m])), w.sha(Hashed(w, b[n])));
    if Hashed(w, a[m]) == Hashed(w, b[n]) {
      SameSplit(Tip(a[..m]), Tip(b[..n]), w.text(a[m]), w.text(b[n]));
    } else {
      assert Collide(w.sha, Hashed(w, a[m]), Hashed(w, b[n]));
    }
  }

  /** A receipt whose body was changed but whose stored hashes were kept is where verification stops,
      unless the old and the new text collide. */
  lemma ChangedBodyIsFound(w: Scheme, log: seq<Receipt>, at: nat, forged: Receipt)
    requires at < |log| && Intact(w, log)
    requires forged.prevHash == log[at].prevHash && forged.hash == log[at].hash
    requires w.text(forged) != w.text(log[at])
    ensures BreaksAt(w, log[at := forged], at) <==> !Collide(w.sha, Hashed(w, forged), Hashed(w, log[at]))
    ensures Intact(w, log[at := forged]) <==> Collide(w.sha, Hashed(w, forged), Hashed(w, log[at]))
  {
    OtherLinksStay(w, log, log[at := forged], at, forged);
    if Hashed(w, forged) == Hashed(w, log[at]) {
      SameSplit(forged.prevHash, log[at].prevHash, w.text(forged), w.text(log[at]));
    }
    if ComputeHash(w, forged) == ComputeHash(w, log[at]) {
      SameSplit("sha256:", "sha256:", w.sha(Hashed(w, forged)), w.sha(Hashed(w, log[at])));
    }
  }

  /** Replacing a receipt by one with the same stored hashes leaves every other link as it was. */
  lemma OtherLinksStay(w: Scheme, log: seq<Receipt>, after: seq<Receipt>, at: nat, forged: Receipt)
    requires at < |log| && Intact(w, log) && after == log[at := forged]
    requires forged.prevHash == log[at].prevHash && forged.hash == log[at].hash
    ensures forall i :: 0 <= i < |log| && i != at ==> Linked(w, after, i)
    ensures Linked(w, after, at) <==> ComputeHash(w, forged) == ComputeHash(w, log[at])
  {
    forall i | 0 <= i < |log| ensures HashBefore(after, i) == HashBefore(log, i) {
      if i > 0 {
        assert after[i - 1] == if i - 1 == at then forged else log[i - 1];
      }
    }
    forall i | 0 <= i < |log| && i != at ensures Linked(w, after, i) {
      assert Linked(w, log, i) && after[i] == log[i];
    }
    assert Linked(w, log, at);
  }
}
