/** Participant e-mail extraction and the domain test, shared by the domain
    generator and the optimized generator (their `extract_participant_emails`
    and `is_domain_participant` do the same thing). Candidate addresses come
    from five fields in this order: participants (comma-joined strings are
    split), meeting attendees, host, organizer and fireflies users. The list
    returned is the lower-cased candidates without repetition. */
module Emails {
  import opened Wrappers
  import opened Text
  import opened Records

  // ----- domain normalisation (the generators' constructors) -----

  const EmptyDomain := "Domain cannot be empty"

  /** `domain.lower().strip()`, rejected when nothing is left. */
  function NormalizeDomain(domain: string): (r: Result<string, string>)
    ensures r.Success? <==> Strip(Lower(domain)) != ""
    ensures r.Success? ==> r.value == Strip(Lower(domain))
    ensures r.Failure? ==> r.error == EmptyDomain
  {
    var d := Strip(Lower(domain));
    if d == "" then Failure(EmptyDomain) else Success(d)
  }

  /** A normalised domain is lower-case, has no surrounding whitespace and is
      a fixed point of the normalisation. */
  lemma NormalizedDomainIsClean(domain: string)
    requires NormalizeDomain(domain).Success?
    ensures var d := NormalizeDomain(domain).value;
            d != "" && IsLowerCase(d) && !IsSpace(d[0]) && !IsSpace(d[|d| - 1])
            && NormalizeDomain(d) == Success(d)
  {
    var l := Lower(domain);
    var d := Strip(l);
    StripLowerCase(l);
    LowerOfLowerCase(d);
    StripIdempotent(l);
    assert Strip(Lower(d)) == d;
  }

  // ----- candidate addresses -----

  /** The stripped pieces of a split participant string that contain '@'. */
  function AtPieces(pieces: seq<string>): seq<string>
  {
    if pieces == [] then []
    else (if '@' in pieces[0] then [Strip(pieces[0])] else []) + AtPieces(pieces[1..])
  }

  /** The kept addresses are exactly the stripped pieces that contain '@'. */
  lemma {:induction false} AtPiecesMembers(pieces: seq<string>)
    ensures forall a :: a in AtPieces(pieces) ==> exists p :: p in pieces && '@' in p && a == Strip(p)
    ensures forall p :: p in pieces && '@' in p ==> Strip(p) in AtPieces(pieces)
  {
    if pieces != [] {
      AtPiecesMembers(pieces[1..]);
      AtPiecesCons(pieces[0], pieces[1..]);
      assert pieces == [pieces[0]] + pieces[1..];
    }
  }

  /** What one participant string contributes: with a ',' its '@' pieces,
      stripped; otherwise the string itself when it contains '@'. */
  function ParticipantAddresses(p: string): seq<string>
  {
    if ',' in p then AtPieces(Split(p, ",")) else if '@' in p then [p] else []
  }

  /** The stripped '@' pieces of comma-free pieces are comma-free, contain
      '@' and have no surrounding whitespace. */
  lemma {:induction false} AtPiecesShape(pieces: seq<string>)
    requires forall q :: q in pieces ==> ',' !in q
    ensures forall a :: a in AtPieces(pieces) ==>
              '@' in a && ',' !in a && (a == "" || (!IsSpace(a[0]) && !IsSpace(a[|a| - 1])))
  {
    if pieces != [] {
      AtPiecesShape(pieces[1..]);
      var q := pieces[0];
      assert q in pieces;
      if '@' in q {
        StripKeepsChar(q, '@');
        if ',' in Strip(q) { StripSubset(q, ','); }
        assert AtPieces(pieces) == [Strip(q)] + AtPieces(pieces[1..]);
      } else {
        assert AtPieces(pieces) == AtPieces(pieces[1..]);
      }
    }
  }

  /** Every contributed address contains '@'; one taken from a comma-joined
      string contains no ',' and no surrounding whitespace. */
  lemma ParticipantAddressesShape(p: string)
    ensures forall a :: a in ParticipantAddresses(p) ==> '@' in a
    ensures ',' in p ==> forall a :: a in ParticipantAddresses(p) ==>
              ',' !in a && (a == "" || (!IsSpace(a[0]) && !IsSpace(a[|a| - 1])))
    ensures ',' !in p ==> ParticipantAddresses(p) == (if '@' in p then [p] else [])
  {
    if ',' in p {
      var pieces := Split(p, ",");
      SplitPiecesFree(p, ",");
      forall q | q in pieces ensures ',' !in q { ContainsChar(q, ','); }
      AtPiecesShape(pieces);
    }
  }

  /** Every piece of a comma-joined participant string that contains '@'
      contributes its stripped form. */
  lemma ParticipantPiecesContribute(p: string, q: string)
    requires ',' in p && q in Split(p, ",") && '@' in q
    ensures Strip(q) in ParticipantAddresses(p)
  {
    AtPiecesMembers(Split(p, ","));
  }

  /** `participants` loop: non-null, non-empty strings contribute. */
  function FromParticipants(ps: seq<Option<string>>): seq<string>
  {
    if ps == [] then []
    else
      FromParticipants(ps[..|ps| - 1])
      + (match ps[|ps| - 1] case Some(p) => ParticipantAddresses(p) case None => [])
  }

  function AttendeeAddress(a: Option<Attendee>): seq<string>
  {
    if a.Some? && Truthy(a.value.email) then [a.value.email.value] else []
  }

  /** `meeting_attendees` loop: every attendee with a truthy `email`. */
  function FromAttendees(as_: seq<Option<Attendee>>): seq<string>
  {
    if as_ == [] then [] else FromAttendees(as_[..|as_| - 1]) + AttendeeAddress(as_[|as_| - 1])
  }

  /** `host_email` / `organizer_email`: kept when truthy and containing '@'. */
  function AddressField(f: Field<string>): seq<string>
  {
    if Truthy(f) && '@' in f.value then [f.value] else []
  }

  function UserAddress(u: Option<string>): seq<string>
  {
    if u.Some? && u.value != "" && '@' in u.value then [u.value] else []
  }

  /** `fireflies_users` loop: truthy entries containing '@'. */
  function FromUsers(us: seq<Option<string>>): seq<string>
  {
    if us == [] then [] else FromUsers(us[..|us| - 1]) + UserAddress(us[|us| - 1])
  }

  /** The appended addresses in source order. */
  function Candidates(t: Transcript): seq<string>
  {
    FromParticipants(Items(t.participants))
    + FromAttendees(Items(t.meetingAttendees))
    + AddressField(t.hostEmail)
    + AddressField(t.organizerEmail)
    + FromUsers(Items(t.firefliesUsers))
  }

  /** `list(set(email.lower() for email in emails if email))`, keeping the
      first occurrence of each address (Python leaves the order unspecified). */
  function DedupLower(cs: seq<string>): seq<string>
  {
    if cs == [] then []
    else
      var r := DedupLower(cs[..|cs| - 1]);
      var c := cs[|cs| - 1];
      if c == "" || Lower(c) in r then r else r + [Lower(c)]
  }

  /** `extract_participant_emails`. */
  function EmailList(t: Transcript): seq<string>
  {
    DedupLower(Candidates(t))
  }

  lemma {:induction false} DedupLowerProperties(cs: seq<string>)
    ensures forall e :: e in DedupLower(cs) ==> e != "" && IsLowerCase(e)
    ensures forall i, j :: 0 <= i < j < |DedupLower(cs)| ==> DedupLower(cs)[i] != DedupLower(cs)[j]
    ensures forall e :: e in DedupLower(cs) <==> exists c :: c in cs && c != "" && Lower(c) == e
  {
    if cs != [] {
      var init := cs[..|cs| - 1];
      DedupLowerProperties(init);
      forall e ensures e in DedupLower(cs) <==> exists c :: c in cs && c != "" && Lower(c) == e {
        if exists c :: c in cs && c != "" && Lower(c) == e {
          var c :| c in cs && c != "" && Lower(c) == e;
          if c != cs[|cs| - 1] { assert c in init; }
        }
        if e in DedupLower(init) {
          var c :| c in init && c != "" && Lower(c) == e;
          assert c in cs;
        }
      }
    }
  }

  /** The extracted addresses are non-empty, lower-case and pairwise distinct,
      and they are exactly the lower-cased non-empty candidates. */
  lemma EmailListProperties(t: Transcript)
    ensures forall e :: e in EmailList(t) ==> e != "" && IsLowerCase(e)
    ensures forall i, j :: 0 <= i < j < |EmailList(t)| ==> EmailList(t)[i] != EmailList(t)[j]
    ensures forall e :: e in EmailList(t) <==> exists c :: c in Candidates(t) && c != "" && Lower(c) == e
  {
    DedupLowerProperties(Candidates(t));
  }

  /** Only the five address fields matter: the title, the sentences and the
      other fields never contribute. */
  lemma EmailListReadsAddressFields(t1: Transcript, t2: Transcript)
    requires t1.participants == t2.participants && t1.meetingAttendees == t2.meetingAttendees
    requires t1.hostEmail == t2.hostEmail && t1.organizerEmail == t2.organizerEmail
    requires t1.firefliesUsers == t2.firefliesUsers
    ensures EmailList(t1) == EmailList(t2)
  {
  }

  /** Each field's contribution is contained in the candidates. */
  lemma {:induction false} FromParticipantsMember(ps: seq<Option<string>>, k: nat, a: string)
    requires k < |ps| && ps[k].Some? && a in ParticipantAddresses(ps[k].value)
    ensures a in FromParticipants(ps)
  {
    if k < |ps| - 1 {
      FromParticipantsMember(ps[..|ps| - 1], k, a);
    }
  }

  lemma {:induction false} FromAttendeesMember(as_: seq<Option<Attendee>>, k: nat)
    requires k < |as_| && as_[k].Some? && Truthy(as_[k].value.email)
    ensures as_[k].value.email.value in FromAttendees(as_)
  {
    if k < |as_| - 1 {
      FromAttendeesMember(as_[..|as_| - 1], k);
    }
  }

  lemma {:induction false} FromUsersMember(us: seq<Option<string>>, k: nat)
    requires k < |us| && us[k].Some? && us[k].value != "" && '@' in us[k].value
    ensures us[k].value in FromUsers(us)
  {
    if k < |us| - 1 {
      FromUsersMember(us[..|us| - 1], k);
    }
  }

  // ----- domain matching -----

  /** `email.endswith(f"@{domain}")`. */
  predicate InDomain(email: string, domain: string)
  {
    EndsWith(email, "@" + domain)
  }

  /** `is_domain_participant`: some extracted address is in the domain. */
  predicate HasDomainParticipant(t: Transcript, domain: string)
  {
    exists e :: e in EmailList(t) && InDomain(e, domain)
  }

  /** The same test read off the raw candidates: some non-empty candidate
      ends, once lower-cased, with "@" + domain. */
  lemma DomainParticipantFromCandidates(t: Transcript, domain: string)
    ensures HasDomainParticipant(t, domain) <==>
              exists c :: c in Candidates(t) && c != "" && InDomain(Lower(c), domain)
  {
    EmailListProperties(t);
  }

  /** The extracted addresses that are in the domain, in list order. */
  function DomainEmails(emails: seq<string>, domain: string): (r: seq<string>)
    ensures forall e :: e in r <==> e in emails && InDomain(e, domain)
  {
    if emails == [] then []
    else (if InDomain(emails[0], domain) then [emails[0]] else []) + DomainEmails(emails[1..], domain)
  }

  lemma DomainEmailsNonEmpty(t: Transcript, domain: string)
    ensures |DomainEmails(EmailList(t), domain)| > 0 <==> HasDomainParticipant(t, domain)
  {
    var r := DomainEmails(EmailList(t), domain);
    if |r| > 0 { assert r[0] in r; }
  }

  /** The `participants` loop of `extract_participant_emails`. */
  method CollectParticipants(ps: seq<Option<string>>) returns (cands: seq<string>)
    ensures cands == FromParticipants(ps)
  {
    cands := [];
    var i := 0;
    while i < |ps|
      invariant 0 <= i <= |ps|
      invariant cands == FromParticipants(ps[..i])
    {
      assert ps[..i + 1][..i] == ps[..i];
      match ps[i] {
        case Some(p) =>
          if ',' in p {
            cands := cands + AtPieces(Split(p, ","));
          } else if '@' in p {
            cands := cands + [p];
          }
        case None =>
      }
      i := i + 1;
    }
    assert ps[..i] == ps;
  }

  /** The `meeting_attendees` loop. */
  method CollectAttendees(as_: seq<Option<Attendee>>) returns (cands: seq<string>)
    ensures cands == FromAttendees(as_)
  {
    cands := [];
    var i := 0;
    while i < |as_|
      invariant 0 <= i <= |as_|
      invariant cands == FromAttendees(as_[..i])
    {
      assert as_[..i + 1][..i] == as_[..i];
      if as_[i].Some? && Truthy(as_[i].value.email) {
        cands := cands + [as_[i].value.email.value];
      }
      i := i + 1;
    }
    assert as_[..i] == as_;
  }

  /** The `fireflies_users` loop. */
  method CollectUsers(us: seq<Option<string>>) returns (cands: seq<string>)
    ensures cands == FromUsers(us)
  {
    cands := [];
    var i := 0;
    while i < |us|
      invariant 0 <= i <= |us|
      invariant cands == FromUsers(us[..i])
    {
      assert us[..i + 1][..i] == us[..i];
      if us[i].Some? && us[i].value != "" && '@' in us[i].value {
        cands := cands + [us[i].value];
      }
      i := i + 1;
    }
    assert us[..i] == us;
  }

  /** The final `list(set(email.lower() for email in emails if email))`. */
  method LowerDistinct(cands: seq<string>) returns (emails: seq<string>)
    ensures emails == DedupLower(cands)
  {
    var seen: set<string> := {};
    emails := [];
    var i := 0;
    while i < |cands|
      invariant 0 <= i <= |cands|
      invariant emails == DedupLower(cands[..i])
      invariant forall e :: e in seen <==> e in emails
    {
      assert cands[..i + 1][..i] == cands[..i];
      var c := cands[i];
      if c != "" && Lower(c) !in seen {
        emails := emails + [Lower(c)];
        seen := seen + {Lower(c)};
      }
      i := i + 1;
    }
    assert cands[..i] == cands;
  }

  /** `extract_participant_emails`: appends the candidates field by field,
      then lower-cases, drops empty strings and removes repetitions. */
  method ExtractParticipantEmails(t: Transcript) returns (emails: seq<string>)
    ensures emails == EmailList(t)
  {
    var cands := CollectParticipants(Items(t.participants));
    var more := CollectAttendees(Items(t.meetingAttendees));
    cands := cands + more;
    ghost var before := cands;
    if Truthy(t.hostEmail) && '@' in t.hostEmail.value {
      cands := cands + [t.hostEmail.value];
    }
    assert cands == before + AddressField(t.hostEmail);
    before := cands;
    if Truthy(t.organizerEmail) && '@' in t.organizerEmail.value {
      cands := cands + [t.organizerEmail.value];
    }
    assert cands == before + AddressField(t.organizerEmail);
    more := CollectUsers(Items(t.firefliesUsers));
    cands := cands + more;
    assert cands == Candidates(t);
    emails := LowerDistinct(cands);
  }

  /** `is_domain_participant`: scans the extracted addresses for one ending
      with "@" + domain. */
  method IsDomainParticipant(t: Transcript, domain: string) returns (b: bool)
    ensures b <==> HasDomainParticipant(t, domain)
  {
    var emails := ExtractParticipantEmails(t);
    b := AnyInDomain(emails, domain);
  }

  /** The scan itself: the first address in the domain ends it. */
  method AnyInDomain(emails: seq<string>, domain: string) returns (b: bool)
    ensures b <==> exists e :: e in emails && InDomain(e, domain)
  {
    var i := 0;
    while i < |emails|
      invariant 0 <= i <= |emails|
      invariant forall j :: 0 <= j < i ==> !InDomain(emails[j], domain)
    {
      if InDomain(emails[i], domain) {
        assert emails[i] in emails;
        return true;
      }
      i := i + 1;
    }
    forall e | e in emails ensures !InDomain(e, domain) {
      var j :| 0 <= j < |emails| && emails[j] == e;
    }
    return false;
  }

  lemma SplitJoinedPair(b: string, c: string)
    requires ',' !in b && ',' !in c
    ensures Split(b + ", " + c, ",") == [b, " " + c]
  {
    assert b + ", " + c == b + [','] + (" " + c);
    assert ',' !in " " + c;
    SplitTwo(b, " " + c, ',');
  }

  lemma AtPiecesPair(b: string, c: string)
    requires '@' in b && '@' in c
    requires !IsSpace(b[0]) && !IsSpace(b[|b| - 1]) && !IsSpace(c[0]) && !IsSpace(c[|c| - 1])
    ensures AtPieces([b, " " + c]) == [b, c]
  {
    StripClean(b);
    StripOneBlank(c);
    var c' := " " + c;
    assert '@' in c' by { var k :| 0 <= k < |c| && c[k] == '@'; assert c'[k + 1] == '@'; }
    AtPiecesCons(c', []);
    AtPiecesCons(b, [c']);
    assert [b] + [c'] == [b, c'];
  }

  lemma AtPiecesCons(p: string, rest: seq<string>)
    ensures AtPieces([p] + rest) == (if '@' in p then [Strip(p)] else []) + AtPieces(rest)
  {
    assert ([p] + rest)[1..] == rest;
  }

  /** A comma-joined participant "b, c" contributes b and c. */
  lemma JoinedParticipant(b: string, c: string)
    requires '@' in b && '@' in c && ',' !in b && ',' !in c
    requires !IsSpace(b[0]) && !IsSpace(b[|b| - 1]) && !IsSpace(c[0]) && !IsSpace(c[|c| - 1])
    ensures ParticipantAddresses(b + ", " + c) == [b, c]
  {
    var p := b + ", " + c;
    assert p[|b|] == ',';
    SplitJoinedPair(b, c);
    AtPiecesPair(b, c);
  }

  /** Distinct non-empty lower-case addresses pass through unchanged. */
  lemma {:induction false} DedupDistinctLower(cs: seq<string>)
    requires forall k :: 0 <= k < |cs| ==> cs[k] != "" && Lower(cs[k]) == cs[k]
    requires forall i, j :: 0 <= i < j < |cs| ==> cs[i] != cs[j]
    ensures DedupLower(cs) == cs
  {
    if cs != [] {
      var init := cs[..|cs| - 1];
      DedupDistinctLower(init);
      assert cs[|cs| - 1] !in init;
      assert cs == init + [cs[|cs| - 1]];
    }
  }
}
