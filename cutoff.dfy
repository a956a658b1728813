/** The per-batch filter both domain generators run: walk the batch in
    order, stop at the first transcript whose date is known to be older than
    the cutoff, and keep the transcripts before it that have a participant in
    the domain. */
module Cutoff {
  import opened Wrappers
  import opened Records
  import opened Emails

  /** The date cutoff test on a `dateString`: `Some(b)` when parsing and
      comparing succeed with answer `b`, `None` when either raises (the
      exception is swallowed and the transcript is treated as recent). */
  type Older = string -> Option<bool>

  /** `date_str = t.get("dateString") or t.get("date")`: only a non-empty
      `dateString` reaches the comparison; a numeric `date` has no `replace`,
      so that attempt raises and is ignored. */
  predicate IsOld(t: Transcript, older: Older)
  {
    Truthy(t.dateString) && older(t.dateString.value) == Some(true)
  }

  /** Position of the first old transcript, or |items| when there is none. */
  function FirstOld(items: seq<Transcript>, older: Older): (i: nat)
    ensures i <= |items|
  {
    if items == [] then 0
    else if IsOld(items[0], older) then 0
    else 1 + FirstOld(items[1..], older)
  }

  /** No transcript before that position is old, and the one at it is. */
  lemma {:induction false} FirstOldProperties(items: seq<Transcript>, older: Older)
    ensures var i := FirstOld(items, older);
            (forall j :: 0 <= j < i ==> !IsOld(items[j], older))
            && (i < |items| ==> IsOld(items[i], older))
  {
    if items != [] && !IsOld(items[0], older) {
      FirstOldProperties(items[1..], older);
      assert forall j :: 1 <= j < |items| ==> items[1..][j - 1] == items[j];
    }
  }

  /** The transcripts examined before the loop breaks. */
  function BeforeOld(items: seq<Transcript>, older: Older): seq<Transcript>
  {
    items[..FirstOld(items, older)]
  }

  /** The domain-participant transcripts of `xs`, in order. */
  function KeepDomain(xs: seq<Transcript>, domain: string): seq<Transcript>
  {
    if xs == [] then []
    else
      KeepDomain(xs[..|xs| - 1], domain)
      + (if HasDomainParticipant(xs[|xs| - 1], domain) then [xs[|xs| - 1]] else [])
  }

  lemma {:induction false} KeepDomainMembers(xs: seq<Transcript>, domain: string)
    ensures forall t :: t in KeepDomain(xs, domain) <==> t in xs && HasDomainParticipant(t, domain)
    ensures |KeepDomain(xs, domain)| <= |xs|
  {
    if xs != [] {
      KeepDomainMembers(xs[..|xs| - 1], domain);
      assert xs == xs[..|xs| - 1] + [xs[|xs| - 1]];
    }
  }

  lemma {:induction false} KeepDomainAppend(a: seq<Transcript>, b: seq<Transcript>, domain: string)
    ensures KeepDomain(a + b, domain) == KeepDomain(a, domain) + KeepDomain(b, domain)
    decreases |b|
  {
    if b != [] {
      var b' := b[..|b| - 1];
      assert (a + b)[..|a + b| - 1] == a + b';
      KeepDomainAppend(a, b', domain);
    } else {
      assert a + b == a;
    }
  }

  lemma {:induction false} FirstOldAppend(a: seq<Transcript>, b: seq<Transcript>, older: Older)
    requires FirstOld(a, older) == |a|
    ensures FirstOld(a + b, older) == |a| + FirstOld(b, older)
  {
    if a == [] {
      assert a + b == b;
    } else {
      assert !IsOld(a[0], older);
      assert (a + b)[0] == a[0];
      assert (a + b)[1..] == a[1..] + b;
      FirstOldAppend(a[1..], b, older);
    }
  }

  /** A batch with no old transcript is examined in full, so what follows it
      in the stream decides where the examination stops. */
  lemma BeforeOldAppend(a: seq<Transcript>, b: seq<Transcript>, older: Older)
    requires FirstOld(a, older) == |a|
    ensures BeforeOld(a + b, older) == a + BeforeOld(b, older)
  {
    FirstOldAppend(a, b, older);
    var i := FirstOld(b, older);
    var ab := a + b;
    assert BeforeOld(ab, older) == ab[..|a| + i];
    assert ab[..|a| + i] == a + b[..i] by {
      assert ab[..|a|] == a;
      assert ab[|a|..|a| + i] == b[..i];
      assert ab[..|a| + i] == ab[..|a|] + ab[|a|..|a| + i];
    }
  }

  /** `FirstOld` is the position the quantified facts describe. */
  lemma FirstOldIs(items: seq<Transcript>, older: Older, i: nat)
    requires i <= |items|
    requires forall j :: 0 <= j < i ==> !IsOld(items[j], older)
    requires i < |items| ==> IsOld(items[i], older)
    ensures FirstOld(items, older) == i
  {
    FirstOldProperties(items, older);
  }

  /** No transcript examined before the loop breaks is old. */
  lemma NoOldBefore(items: seq<Transcript>, older: Older)
    ensures forall t :: t in BeforeOld(items, older) ==> !IsOld(t, older)
  {
    FirstOldProperties(items, older);
    var b := BeforeOld(items, older);
    forall t | t in b ensures !IsOld(t, older) {
      var j :| 0 <= j < |b| && b[j] == t;
      assert items[j] == t;
    }
  }

  /** The outcome of one batch: the kept transcripts and whether an old one
      was hit (`should_stop`). */
  datatype Scan = Scan(kept: seq<Transcript>, hitOld: bool)

  function ScanBatch(items: seq<Transcript>, domain: string, older: Older): Scan
  {
    Scan(KeepDomain(BeforeOld(items, older), domain), FirstOld(items, older) < |items|)
  }

  /** A batch keeps only recent domain-participant transcripts of the batch,
      and it reports an old transcript exactly when the batch holds one. */
  lemma ScanBatchProperties(items: seq<Transcript>, domain: string, older: Older)
    ensures var s := ScanBatch(items, domain, older);
            (forall t :: t in s.kept ==> t in items && HasDomainParticipant(t, domain) && !IsOld(t, older))
            && (s.hitOld <==> exists k :: 0 <= k < |items| && IsOld(items[k], older))
  {
    var b := BeforeOld(items, older);
    KeepDomainMembers(b, domain);
    FirstOldProperties(items, older);
    NoOldBefore(items, older);
    var i := FirstOld(items, older);
    if i < |items| { assert IsOld(items[i], older); }
  }

  /** The `for transcript in batch` loop of both generators. */
  method FilterBatch(items: seq<Transcript>, domain: string, older: Older) returns (kept: seq<Transcript>, hitOld: bool)
    ensures Scan(kept, hitOld) == ScanBatch(items, domain, older)
  {
    kept := [];
    hitOld := false;
    var i := 0;
    while i < |items|
      invariant 0 <= i <= |items|
      invariant forall j :: 0 <= j < i ==> !IsOld(items[j], older)
      invariant kept == KeepDomain(items[..i], domain)
    {
      var t := items[i];
      if Truthy(t.dateString) && older(t.dateString.value) == Some(true) {
        hitOld := true;
        FirstOldIs(items, older, i);
        return;
      }
      var member := IsDomainParticipant(t, domain);
      assert items[..i + 1][..i] == items[..i];
      if member {
        kept := kept + [t];
      }
      i := i + 1;
    }
    FirstOldIs(items, older, i);
    assert items[..i] == items;
  }

  /** One full batch without an old transcript, followed by the rest. */
  lemma FoundStep(items: seq<Transcript>, tail: seq<Transcript>, acc: seq<Transcript>, domain: string, older: Older)
    requires FirstOld(items, older) == |items|
    ensures acc + KeepDomain(items, domain) + KeepDomain(BeforeOld(tail, older), domain)
            == acc + KeepDomain(BeforeOld(items + tail, older), domain)
  {
    BeforeOldAppend(items, tail, older);
    KeepDomainAppend(items, BeforeOld(tail, older), domain);
  }
}
