/** fetch_fireflies_from_chrome_tabs.py: the URLs of the Chrome tabs showing
    "fireflies.ai/view/" are read off the AppleScript output, a transcript
    ID is taken from each URL, the transcripts are fetched by ID, and their
    formatted texts are combined in the order of the tabs. */
module ChromeTabs {
  import opened Wrappers
  import opened Text
  import opened Records
  import opened FirefliesApi

  // ----- get_chrome_tabs -----

  /** The non-empty strings of `parts`, in order. */
  function NonEmpty(parts: seq<string>): seq<string>
  {
    if parts == [] then [] else (if parts[0] != "" then [parts[0]] else []) + NonEmpty(parts[1..])
  }

  /** `[url for url in result.stdout.strip().split(", ") if url]`. */
  function TabUrls(stdout: string): seq<string>
  {
    NonEmpty(Split(Strip(stdout), ", "))
  }

  lemma {:induction false} NonEmptyProperties(parts: seq<string>)
    ensures forall u :: u in NonEmpty(parts) <==> u in parts && u != ""
    ensures (forall k :: 0 <= k < |parts| ==> parts[k] != "") ==> NonEmpty(parts) == parts
  {
    if parts != [] {
      NonEmptyProperties(parts[1..]);
      assert parts == [parts[0]] + parts[1..];
      if forall k :: 0 <= k < |parts| ==> parts[k] != "" {
        assert forall k :: 0 <= k < |parts[1..]| ==> parts[1..][k] == parts[k + 1];
      }
    }
  }

  /** The URLs are the non-empty pieces of the stripped output between the
      ", " separators: none is empty, none contains ", ", and when no piece
      is empty joining them back with ", " gives the stripped output. */
  lemma TabUrlsProperties(stdout: string)
    ensures forall u :: u in TabUrls(stdout) <==> u in Split(Strip(stdout), ", ") && u != ""
    ensures forall u :: u in TabUrls(stdout) ==> !Contains(u, ", ")
    ensures (forall p :: p in Split(Strip(stdout), ", ") ==> p != "") ==> Join(TabUrls(stdout), ", ") == Strip(stdout)
  {
    var parts := Split(Strip(stdout), ", ");
    NonEmptyProperties(parts);
    if forall p :: p in parts ==> p != "" {
      assert forall k :: 0 <= k < |parts| ==> parts[k] in parts;
    }
    SplitPiecesFree(Strip(stdout), ", ");
    SplitJoin(Strip(stdout), ", ");
  }

  // ----- the transcript ID pattern -----

  /** The text `fireflies\.ai/view/` of the pattern. */
  const Marker := "fireflies.ai/view/"

  /** `[A-Za-z0-9]`. */
  predicate IsIdChar(c: char)
  {
    'A' <= c <= 'Z' || 'a' <= c <= 'z' || '0' <= c <= '9'
  }

  predicate IsDigit(c: char)
  {
    '0' <= c <= '9'
  }

  /** `[A-Za-z0-9]*[0-9]+[A-Za-z0-9]*`: ASCII letters and digits, with at
      least one digit. */
  predicate ValidId(x: string)
  {
    IdChars(x) && HasDigit(x)
  }

  /** `[A-Za-z0-9]*`. */
  predicate IdChars(x: string)
  {
    x == [] || (IsIdChar(x[0]) && IdChars(x[1..]))
  }

  predicate HasDigit(x: string)
  {
    x != [] && (IsDigit(x[0]) || HasDigit(x[1..]))
  }

  lemma {:induction false} IdCharsIff(x: string)
    ensures IdChars(x) <==> forall i :: 0 <= i < |x| ==> IsIdChar(x[i])
  {
    if x != [] {
      IdCharsIff(x[1..]);
      assert forall i :: 0 < i < |x| ==> x[i] == x[1..][i - 1];
    }
  }

  lemma {:induction false} HasDigitIff(x: string)
    ensures HasDigit(x) <==> exists i :: 0 <= i < |x| && IsDigit(x[i])
  {
    if x != [] {
      HasDigitIff(x[1..]);
      if exists i :: 0 <= i < |x| && IsDigit(x[i]) {
        var i :| 0 <= i < |x| && IsDigit(x[i]);
        if i > 0 { assert x[1..][i - 1] == x[i]; }
      }
      if HasDigit(x[1..]) {
        var i :| 0 <= i < |x[1..]| && IsDigit(x[1..][i]);
        assert x[i + 1] == x[1..][i];
      }
    }
  }

  /** A valid identifier: every character an ASCII letter or digit, and
      some character a digit. */
  lemma ValidIdIff(x: string)
    ensures ValidId(x) <==> (forall i :: 0 <= i < |x| ==> IsIdChar(x[i])) && (exists i :: 0 <= i < |x| && IsDigit(x[i]))
  {
    IdCharsIff(x);
    HasDigitIff(x);
  }

  /** What is left for the identifier group once `/?$` is matched at the
      end: a final "\n" (which `$` may stand before) and then a final "/"
      come off. */
  function DropTrailing(b: string): (r: string)
    ensures |r| <= |b| && r == b[..|r|]
  {
    var b1 := if |b| > 0 && b[|b| - 1] == '\n' then b[..|b| - 1] else b;
    if |b1| > 0 && b1[|b1| - 1] == '/' then b1[..|b1| - 1] else b1
  }

  /** The position of the last "::" in `s`, or -1. */
  function LastDoubleColon(s: string): (k: int)
    ensures k == -1 || (0 <= k && k + 2 <= |s|)
    ensures k >= 0 ==> s[k] == ':' && s[k + 1] == ':'
    ensures forall j :: k < j < |s| - 1 ==> !(s[j] == ':' && s[j + 1] == ':')
    decreases |s|
  {
    if |s| < 2 then -1
    else if s[|s| - 2] == ':' && s[|s| - 1] == ':' then |s| - 2
    else LastDoubleColon(s[..|s| - 1])
  }

  /** The hand-written matcher for `(?:.*::)?([A-Za-z0-9]*[0-9]+[A-Za-z0-9]*)/?$`
      applied right after the marker: the captured identifier. Only the
      text after the last "::" can be the identifier, as it holds no ':'. */
  function IdAfterMarker(r: string): Option<string>
  {
    var k := LastDoubleColon(r);
    if k >= 0 && '\n' !in r[..k] && ValidId(DropTrailing(r[k + 2..])) then Some(DropTrailing(r[k + 2..]))
    else if ValidId(DropTrailing(r)) then Some(DropTrailing(r))
    else None
  }

  predicate MarkerAt(url: string, i: int)
  {
    0 <= i && i + |Marker| <= |url| && url[i..i + |Marker|] == Marker
  }

  /** The group the pattern captures when it is tried at position `i`. */
  function MatchedId(url: string, i: nat): Option<string>
  {
    if MarkerAt(url, i) then IdAfterMarker(url[i + |Marker|..]) else None
  }

  /** The whole pattern matches at position `i`. */
  predicate MatchAt(url: string, i: nat)
  {
    MatchedId(url, i).Some?
  }

  /** The leftmost attempt in `[i, n)` that succeeds, as `re.search` tries
      one start position after the other. */
  function FirstHit(at: nat -> Option<string>, i: nat, n: nat): Option<string>
    decreases n - i
  {
    if i >= n then None
    else if at(i).Some? then at(i)
    else FirstHit(at, i + 1, n)
  }

  /** The pattern tried at each start position of `url`. */
  function Attempts(url: string): nat -> Option<string>
  {
    (j: nat) => MatchedId(url, j)
  }

  /** `re.search(pattern, url)`: the group of the leftmost match. */
  function ExtractId(url: string): Option<string>
  {
    FirstHit(Attempts(url), 0, |url|)
  }

  // ----- the matcher against the pattern -----

  /** `b` is the identifier `x` followed by what `/?$` accepts. */
  predicate TailAccepts(b: string, x: string)
  {
    ValidId(x) && (b == x || b == x + "/" || b == x + "\n" || b == x + "/\n")
  }

  /** The optional group `.*::` takes `r[..k + 2]` (`.` matches no newline)
      and the rest captures `x`. */
  ghost predicate SplitAccepts(r: string, k: int, x: string)
  {
    0 <= k && k + 2 <= |r| && r[k] == ':' && r[k + 1] == ':' && '\n' !in r[..k] && TailAccepts(r[k + 2..], x)
  }

  /** `(?:.*::)?(ID)/?$` matches `r` from its first character, capturing `x`. */
  ghost predicate RestAccepts(r: string, x: string)
  {
    TailAccepts(r, x) || exists k :: SplitAccepts(r, k, x)
  }

  /** An accepted tail holds no ':' and gives back its identifier. */
  lemma TailDrops(b: string, x: string)
    requires TailAccepts(b, x)
    ensures DropTrailing(b) == x
    ensures ':' !in b
  {
    ValidIdIff(x);
    var d :| 0 <= d < |x| && IsDigit(x[d]);
    assert IsIdChar(x[|x| - 1]);
    if b == x + "/\n" {
      assert b[..|b| - 1] == x + "/";
    } else if b == x + "/" || b == x + "\n" {
      assert b[..|b| - 1] == x;
    }
    forall i | 0 <= i < |b| ensures b[i] != ':' {
      if i < |x| { assert b[i] == x[i] && IsIdChar(x[i]); }
    }
  }

  /** A valid identifier left by `DropTrailing` is accepted. */
  lemma DropAccepted(b: string)
    requires ValidId(DropTrailing(b))
    ensures TailAccepts(b, DropTrailing(b))
  {
    var x := DropTrailing(b);
    var b1 := if |b| > 0 && b[|b| - 1] == '\n' then b[..|b| - 1] else b;
    if |b1| > 0 && b1[|b1| - 1] == '/' {
      assert b1 == x + "/";
    }
    if |b| > 0 && b[|b| - 1] == '\n' {
      assert b == b1 + "\n";
    }
  }

  /** The split the group can take is the last "::". */
  lemma SplitIsLast(r: string, k: int, x: string)
    requires SplitAccepts(r, k, x)
    ensures k == LastDoubleColon(r)
  {
    TailDrops(r[k + 2..], x);
    forall j | k + 2 <= j < |r| ensures r[j] != ':' {
      assert r[k + 2..][j - k - 2] == r[j];
    }
  }

  /** The matcher captures `x` exactly when the pattern matches `r` with
      `x` as its group: the group is determined by `r`. */
  lemma IdAfterMarkerSpec(r: string, x: string)
    ensures IdAfterMarker(r) == Some(x) <==> RestAccepts(r, x)
  {
    var k := LastDoubleColon(r);
    if IdAfterMarker(r) == Some(x) {
      if k >= 0 && '\n' !in r[..k] && ValidId(DropTrailing(r[k + 2..])) {
        DropAccepted(r[k + 2..]);
        assert SplitAccepts(r, k, x);
      } else {
        DropAccepted(r);
      }
    }
    if RestAccepts(r, x) {
      if exists j :: SplitAccepts(r, j, x) {
        var j :| SplitAccepts(r, j, x);
        SplitIsLast(r, j, x);
        TailDrops(r[k + 2..], x);
      } else {
        TailDrops(r, x);
        assert k < 0;
      }
    }
  }

  /** Position `j` is the leftmost where the pattern matches. */
  ghost predicate LeftmostMatch(url: string, j: nat)
  {
    MatchAt(url, j) && forall i: nat :: i < j ==> !MatchAt(url, i)
  }

  lemma {:induction false} FirstHitNone(at: nat -> Option<string>, i: nat, n: nat)
    ensures FirstHit(at, i, n).None? <==> forall j: nat :: i <= j < n ==> at(j).None?
    decreases n - i
  {
    if i < n && at(i).None? {
      FirstHitNone(at, i + 1, n);
    }
  }

  lemma {:induction false} FirstHitSome(at: nat -> Option<string>, i: nat, n: nat) returns (j: nat)
    requires FirstHit(at, i, n).Some?
    ensures i <= j < n && at(j) == FirstHit(at, i, n)
    ensures forall l: nat :: i <= l < j ==> at(l).None?
    decreases n - i
  {
    if at(i).Some? {
      j := i;
    } else {
      j := FirstHitSome(at, i + 1, n);
    }
  }

  /** Attempts that fail are passed over. */
  lemma {:induction false} FirstHitSkips(at: nat -> Option<string>, i: nat, j: nat, n: nat)
    requires i <= j <= n && forall l: nat :: i <= l < j ==> at(l).None?
    ensures FirstHit(at, i, n) == FirstHit(at, j, n)
    decreases j - i
  {
    if i < j {
      FirstHitSkips(at, i + 1, j, n);
    }
  }

  /** `extract_transcript_ids` keeps a URL's group exactly when the pattern
      matches somewhere in it; the group is the one of the leftmost match,
      a valid identifier the pattern captures after the marker. */
  lemma ExtractIdNone(url: string)
    ensures ExtractId(url).None? <==> forall j: nat :: !MatchAt(url, j)
  {
    var at := Attempts(url);
    FirstHitNone(at, 0, |url|);
    if ExtractId(url).None? {
      forall j: nat ensures !MatchAt(url, j) {
        if j < |url| {
          assert at(j).None?;
        } else {
          assert !MarkerAt(url, j);
        }
      }
    }
    if forall j: nat :: !MatchAt(url, j) {
      forall j: nat | j < |url| ensures at(j).None? {
        assert !MatchAt(url, j);
      }
    }
  }

  lemma ExtractIdSome(url: string) returns (j: nat)
    requires ExtractId(url).Some?
    ensures LeftmostMatch(url, j)
    ensures j + |Marker| <= |url| && ExtractId(url) == IdAfterMarker(url[j + |Marker|..])
  {
    var at := Attempts(url);
    j := FirstHitSome(at, 0, |url|);
    assert at(j) == MatchedId(url, j);
    forall i: nat | i < j ensures !MatchAt(url, i) {
      assert at(i).None?;
    }
  }

  lemma ExtractIdProperties(url: string)
    ensures ExtractId(url).None? <==> forall j: nat :: !MatchAt(url, j)
    ensures ExtractId(url).Some? ==>
              ValidId(ExtractId(url).value)
              && exists j: nat :: LeftmostMatch(url, j) && RestAccepts(url[j + |Marker|..], ExtractId(url).value)
  {
    ExtractIdNone(url);
    if ExtractId(url).Some? {
      var j := ExtractIdSome(url);
      IdAfterMarkerSpec(url[j + |Marker|..], ExtractId(url).value);
    }
  }

  /** Text without a digit leaves no valid identifier. */
  lemma NoDigitTail(b: string)
    requires forall i :: 0 <= i < |b| ==> !IsDigit(b[i])
    ensures !ValidId(DropTrailing(b))
  {
    var x := DropTrailing(b);
    HasDigitIff(x);
    assert forall i :: 0 <= i < |x| ==> x[i] == b[i];
  }

  /** A URL without a digit gives no identifier. */
  lemma NoDigitNoId(url: string)
    requires forall i :: 0 <= i < |url| ==> !IsDigit(url[i])
    ensures ExtractId(url).None?
  {
    forall j: nat ensures !MatchAt(url, j) {
      if MarkerAt(url, j) {
        var r := url[j + |Marker|..];
        assert forall i :: 0 <= i < |r| ==> r[i] == url[j + |Marker| + i];
        NoDigitTail(r);
        var k := LastDoubleColon(r);
        if k >= 0 {
          var t := r[k + 2..];
          assert forall i :: 0 <= i < |t| ==> t[i] == r[k + 2 + i];
          NoDigitTail(t);
        }
      }
    }
    ExtractIdProperties(url);
  }

  /** The old URL form ".../view/slug::ID", with or without a final "/",
      gives the identifier after the "::". */
  lemma SlugAndId(slug: string, id: string, slash: bool)
    requires ValidId(id) && '\n' !in slug
    ensures IdAfterMarker(slug + "::" + id + (if slash then "/" else "")) == Some(id)
  {
    var r := slug + "::" + id + (if slash then "/" else "");
    assert r[..|slug|] == slug;
    assert r[|slug| + 2..] == id + (if slash then "/" else "");
    assert SplitAccepts(r, |slug|, id);
    IdAfterMarkerSpec(r, id);
  }

  /** The new URL form ".../view/ID", with or without a final "/". */
  lemma BareId(id: string, slash: bool)
    requires ValidId(id)
    ensures IdAfterMarker(id + (if slash then "/" else "")) == Some(id)
  {
    IdAfterMarkerSpec(id + (if slash then "/" else ""), id);
  }

  /** The marker does not start inside the "https://" scheme. */
  lemma SchemeHasNoMarker(url: string, i: nat)
    requires 8 <= |url| && url[..8] == "https://" && i < 8
    ensures !MarkerAt(url, i)
  {
    if i + |Marker| <= |url| {
      assert url[i..i + |Marker|][0] == url[..8][i];
    }
  }

  /** Behind "https://" the marker is the first place the pattern can match. */
  lemma HttpsUrl(rest: string)
    requires IdAfterMarker(rest).Some?
    ensures ExtractId("https://" + Marker + rest) == IdAfterMarker(rest)
  {
    var url := "https://" + Marker + rest;
    var at := Attempts(url);
    assert url[..8] == "https://";
    forall i: nat | i < 8 ensures at(i).None? {
      SchemeHasNoMarker(url, i);
    }
    FirstHitSkips(at, 0, 8, |url|);
    assert url[8..8 + |Marker|] == Marker;
    assert url[8 + |Marker|..] == rest;
    assert at(8) == IdAfterMarker(rest);
  }

  /** A tab URL in the old "slug::ID" form gives the identifier after "::". */
  lemma SlugUrl(slug: string, id: string, slash: bool)
    requires ValidId(id) && '\n' !in slug
    ensures ExtractId("https://" + Marker + (slug + "::" + id + (if slash then "/" else ""))) == Some(id)
  {
    SlugAndId(slug, id, slash);
    HttpsUrl(slug + "::" + id + (if slash then "/" else ""));
  }

  /** A tab URL in the new form gives the identifier after the marker. */
  lemma BareUrl(id: string, slash: bool)
    requires ValidId(id)
    ensures ExtractId("https://" + Marker + (id + (if slash then "/" else ""))) == Some(id)
  {
    BareId(id, slash);
    HttpsUrl(id + (if slash then "/" else ""));
  }

  /** A URL of the extraction test that carries none. */
  lemma NoIdExample(url: string)
    requires url == "https://fireflies.ai/dashboard"
    ensures ExtractId(url) == None
  {
    NoDigitNoId(url);
  }

  // ----- extract_transcript_ids -----

  /** The values `extract` finds in `urls`, in URL order. */
  function Kept(urls: seq<string>, extract: string -> Option<string>): seq<string>
  {
    if urls == [] then []
    else
      var e := extract(urls[|urls| - 1]);
      Kept(urls[..|urls| - 1], extract) + (if e.Some? then [e.value] else [])
  }

  /** The identifiers of the URLs that match, in URL order. */
  function TranscriptIds(urls: seq<string>): seq<string>
  {
    Kept(urls, ExtractId)
  }

  lemma {:induction false} KeptOrigins(urls: seq<string>, extract: string -> Option<string>) returns (o: seq<nat>)
    ensures var ids := Kept(urls, extract);
            |o| == |ids| <= |urls|
            && (forall k :: 0 <= k < |o| ==> o[k] < |urls| && extract(urls[o[k]]) == Some(ids[k]))
            && (forall k, l :: 0 <= k < l < |o| ==> o[k] < o[l])
            && (forall i :: 0 <= i < |urls| && extract(urls[i]).Some? ==> i in o)
  {
    if urls == [] {
      o := [];
    } else {
      var n := |urls| - 1;
      var init := urls[..n];
      var o0 := KeptOrigins(init, extract);
      forall k | 0 <= k < |o0| ensures init[o0[k]] == urls[o0[k]] {
      }
      forall i | 0 <= i < n ensures init[i] == urls[i] {
      }
      if extract(urls[n]).Some? {
        o := o0 + [n];
      } else {
        o := o0;
      }
    }
  }

  /** At most one identifier per URL, in the order of the URLs: `o` names
      the URL each came from, and every URL that matches has one. */
  lemma TranscriptIdsOrigins(urls: seq<string>) returns (o: seq<nat>)
    ensures var ids := TranscriptIds(urls);
            |o| == |ids| <= |urls|
            && (forall k :: 0 <= k < |o| ==> o[k] < |urls| && ExtractId(urls[o[k]]) == Some(ids[k]))
            && (forall k, l :: 0 <= k < l < |o| ==> o[k] < o[l])
            && (forall i :: 0 <= i < |urls| && ExtractId(urls[i]).Some? ==> i in o)
  {
    o := KeptOrigins(urls, ExtractId);
  }

  /** Every identifier is a non-empty string of ASCII letters and digits
      with at least one digit. */
  lemma {:induction false} TranscriptIdsValid(urls: seq<string>)
    ensures forall x :: x in TranscriptIds(urls) ==> ValidId(x) && |x| > 0
  {
    if urls != [] {
      TranscriptIdsValid(urls[..|urls| - 1]);
      var u := urls[|urls| - 1];
      ExtractIdProperties(u);
    }
  }

  /** `extract_transcript_ids`. */
  method ExtractTranscriptIds(urls: seq<string>) returns (ids: seq<string>)
    ensures ids == TranscriptIds(urls)
  {
    ids := [];
    for i := 0 to |urls|
      invariant ids == TranscriptIds(urls[..i])
    {
      assert urls[..i + 1][..i] == urls[..i];
      var m := ExtractId(urls[i]);
      if m.Some? {
        ids := ids + [m.value];
      }
    }
    assert urls[..|urls|] == urls;
  }

  // ----- fetch_transcripts_parallel -----

  /** What `api.get_transcript_by_id` hands back for an identifier, or the
      text of what it raised. */
  type Fetch = string -> Result<Option<Transcript>, string>

  /** `future.result()` did not raise and `if transcript:` holds. */
  predicate Fetched(r: Result<Option<Transcript>, string>)
  {
    r.Success? && r.value.Some? && !IsEmptyObject(r.value.value)
  }

  /** The map `fetch_transcripts_parallel` returns: the fetched transcript
      of every identifier whose fetch succeeded with a truthy transcript. */
  function TranscriptsMap(ids: seq<string>, fetch: Fetch): map<string, Transcript>
  {
    map id | id in ids && Fetched(fetch(id)) :: fetch(id).value.value
  }

  /** The executor's `max_workers`. */
  function MaxWorkers(n: nat): nat
  {
    if n < 10 then n else 10
  }

  /** One worker per identifier, at most ten, and at least one for a
      non-empty list. */
  lemma MaxWorkersBounds(n: nat)
    requires n > 0
    ensures 1 <= MaxWorkers(n) <= 10 && MaxWorkers(n) <= n
    ensures n <= 10 ==> MaxWorkers(n) == n
    ensures n >= 10 ==> MaxWorkers(n) == 10
  {
  }

  /** The results as they complete: each one that is truthy is stored under
      its identifier. The workers' order does not matter, as every fetch of
      an identifier gives the same result; the loop takes them in list
      order. */
  method FetchTranscripts(ids: seq<string>, fetch: Fetch) returns (m: map<string, Transcript>)
    ensures m.Keys == set id | id in ids && Fetched(fetch(id))
    ensures forall id :: id in m ==> m[id] == fetch(id).value.value
    ensures ids == [] ==> m == map[]
  {
    if ids == [] {
      return map[];
    }
    var workers := MaxWorkers(|ids|);
    m := map[];
    for i := 0 to |ids|
      invariant m.Keys == set id | id in ids[..i] && Fetched(fetch(id))
      invariant forall id :: id in m ==> m[id] == fetch(id).value.value
    {
      assert forall id :: id in ids[..i + 1] <==> id in ids[..i] || id == ids[i];
      var transcript := fetch(ids[i]);
      if transcript.Success? && transcript.value.Some? && !IsEmptyObject(transcript.value.value) {
        m := m[ids[i] := transcript.value.value];
      }
    }
    assert ids[..|ids|] == ids;
  }

  /** The loop computes the map comprehension. */
  lemma FetchedMapIsTranscriptsMap(ids: seq<string>, fetch: Fetch, m: map<string, Transcript>)
    requires m.Keys == set id | id in ids && Fetched(fetch(id))
    requires forall id :: id in m ==> m[id] == fetch(id).value.value
    ensures m == TranscriptsMap(ids, fetch)
  {
  }

  /** Fetching through the API client: `get_transcript_by_id` on the
      exchange its query produced. */
  function ClientFetch(exchanges: string -> Exchange): Fetch
  {
    id => TranscriptById(id, exchanges(id))
  }

  /** With the client, an identifier is a key exactly when its query
      succeeded with a non-empty `transcript` object, which is stored. */
  lemma ClientFetchKeys(ids: seq<string>, exchanges: string -> Exchange, id: string)
    ensures var m := TranscriptsMap(ids, ClientFetch(exchanges));
            var q := ExecuteQuery(exchanges(id));
            (id in m <==> id in ids && q.Success? && q.value.Some? && q.value.value.transcript.Val?
                          && !IsEmptyObject(q.value.value.transcript.value))
            && (id in m ==> m[id] == q.value.value.transcript.value)
  {
  }

  /** `str(e)` of the TypeError raised by `get_transcript_by_id(id, timeout=60)`. */
  const UnexpectedTimeout := "FirefliesAPI.get_transcript_by_id() got an unexpected keyword argument 'timeout'"

  /** The call as written passes `timeout=60` to a method that has no such
      parameter: it raises before any request is made. */
  function FetchAsWritten(id: string): Result<Option<Transcript>, string>
  {
    Failure(UnexpectedTimeout)
  }

  /** As written, the map is always empty. */
  lemma AsWrittenFetchesNothing(ids: seq<string>)
    ensures TranscriptsMap(ids, FetchAsWritten) == map[]
  {
  }

  // ----- combining in main -----

  /** `all_transcripts`: the formatted text of each fetched identifier, in
      the order of `ids`; an identifier missing from the map is skipped. */
  function FormattedTexts(ids: seq<string>, m: map<string, Transcript>): seq<string>
  {
    if ids == [] then []
    else
      var id := ids[|ids| - 1];
      FormattedTexts(ids[..|ids| - 1], m) + (if id in m then [FormatText(Some(m[id]))] else [])
  }

  /** The texts follow `ids`: `o` names the identifier each text formats,
      in increasing order, and every identifier in the map has its text. */
  lemma {:induction false} FormattedOrigins(ids: seq<string>, m: map<string, Transcript>) returns (o: seq<nat>)
    ensures var ts := FormattedTexts(ids, m);
            |o| == |ts| <= |ids|
            && (forall k :: 0 <= k < |o| ==> o[k] < |ids| && ids[o[k]] in m && ts[k] == FormatText(Some(m[ids[o[k]]])))
            && (forall k, l :: 0 <= k < l < |o| ==> o[k] < o[l])
            && (forall i :: 0 <= i < |ids| && ids[i] in m ==> i in o)
  {
    if ids == [] {
      o := [];
    } else {
      var n := |ids| - 1;
      var init := ids[..n];
      var o0 := FormattedOrigins(init, m);
      forall k | 0 <= k < |o0| ensures init[o0[k]] == ids[o0[k]] {
      }
      forall i | 0 <= i < n ensures init[i] == ids[i] {
      }
      var ts0 := FormattedTexts(init, m);
      var ts := FormattedTexts(ids, m);
      assert ts[..|ts0|] == ts0;
      if ids[n] in m {
        o := o0 + [n];
      } else {
        o := o0;
      }
    }
  }

  /** No text is left exactly when no identifier was fetched. */
  lemma {:induction false} FormattedEmpty(ids: seq<string>, m: map<string, Transcript>)
    ensures FormattedTexts(ids, m) == [] <==> forall i :: 0 <= i < |ids| ==> ids[i] !in m
  {
    if ids != [] {
      var init := ids[..|ids| - 1];
      FormattedEmpty(init, m);
      forall i | 0 <= i < |init| ensures init[i] == ids[i] {
      }
    }
  }

  /** Some text is left exactly when some identifier was fetched. */
  lemma SomeFetchedIff(ids: seq<string>, fetch: Fetch)
    ensures FormattedTexts(ids, TranscriptsMap(ids, fetch)) != [] <==> exists i :: 0 <= i < |ids| && Fetched(fetch(ids[i]))
  {
    var m := TranscriptsMap(ids, fetch);
    FormattedEmpty(ids, m);
    if exists i :: 0 <= i < |ids| && Fetched(fetch(ids[i])) {
      var i :| 0 <= i < |ids| && Fetched(fetch(ids[i]));
      assert ids[i] in m;
    }
  }

  /** The loop over `transcript_ids` that formats and appends. */
  method CollectTexts(ids: seq<string>, m: map<string, Transcript>) returns (all: seq<string>)
    ensures all == FormattedTexts(ids, m)
  {
    all := [];
    for i := 0 to |ids|
      invariant all == FormattedTexts(ids[..i], m)
    {
      assert ids[..i + 1][..i] == ids[..i];
      var id := ids[i];
      if id in m {
        var formatted := FormatTranscript(Some(m[id]));
        all := all + [formatted];
      }
    }
    assert ids[..|ids|] == ids;
  }

  /** `"\n\n" + "\n\n".join(all_transcripts)`. */
  function Combined(texts: seq<string>): string
  {
    "\n\n" + Join(texts, "\n\n")
  }

  /** The combined text starts with the blank line and then the first text. */
  lemma CombinedStarts(texts: seq<string>)
    requires texts != []
    ensures StartsWith(Combined(texts), "\n\n" + texts[0])
  {
    JoinStartsWith(texts, "\n\n");
    var j := Join(texts, "\n\n");
    assert j[..|texts[0]|] == texts[0];
    assert Combined(texts)[..|"\n\n" + texts[0]|] == "\n\n" + j[..|texts[0]|];
  }

  /** A further text adds a blank line and itself. */
  lemma CombinedAppend(texts: seq<string>, t: string)
    requires texts != []
    ensures Combined(texts + [t]) == Combined(texts) + "\n\n" + t
  {
    JoinAppend(texts, t, "\n\n");
  }

  // ----- main -----

  const NoTabs := "FlyCast: No Fireflies tabs found in Chrome."
  const NoIds := "FlyCast: No valid Fireflies transcript IDs found in Chrome tabs."
  const NothingFetched := "FlyCast: Failed to fetch any transcripts"

  /** The message `main` prints before exiting when `osascript` fails: the
      RuntimeError raised for its exit status is wrapped once more. */
  function TabsError(stderr: string): string
  {
    "FlyCast Error: Failed to get Chrome tabs: Failed to access Chrome tabs: " + stderr
  }

  /** `main` up to the clipboard: the AppleScript output (its stdout, or its
      stderr when it failed) and the client to the text copied, or the line
      printed before `sys.exit(1)`. */
  function FlyCast(tabs: Result<string, string>, client: Result<Client, string>, fetch: Fetch): Result<string, string>
  {
    match tabs
    case Failure(stderr) => Failure(TabsError(stderr))
    case Success(stdout) =>
      var urls := TabUrls(stdout);
      if urls == [] then Failure(NoTabs)
      else
        var ids := TranscriptIds(urls);
        if ids == [] then Failure(NoIds)
        else if client.Failure? then Failure("FlyCast Error: " + client.error)
        else
          var texts := FormattedTexts(ids, TranscriptsMap(ids, fetch));
          if texts == [] then Failure(NothingFetched) else Success(Combined(texts))
  }

  /** Some identifier of `ids` was fetched. */
  ghost predicate SomeFetched(ids: seq<string>, fetch: Fetch)
  {
    exists i :: 0 <= i < |ids| && Fetched(fetch(ids[i]))
  }

  /** With the tabs read and a client made, `main` copies text exactly when
      some identifier was fetched: the blank line and the formatted
      transcripts in tab order. */
  lemma FlyCastProperties(stdout: string, client: Client, fetch: Fetch)
    ensures FlyCast(Success(stdout), Success(client), fetch).Success?
            <==> SomeFetched(TranscriptIds(TabUrls(stdout)), fetch)
    ensures FlyCast(Success(stdout), Success(client), fetch).Success? ==>
              FlyCast(Success(stdout), Success(client), fetch).value
              == Combined(FormattedTexts(TranscriptIds(TabUrls(stdout)), TranscriptsMap(TranscriptIds(TabUrls(stdout)), fetch)))
  {
    var urls := TabUrls(stdout);
    var ids := TranscriptIds(urls);
    SomeFetchedIff(ids, fetch);
    if urls == [] {
      assert ids == [];
    }
  }

  /** `main` copies only after reading the tabs and making a client, and
      the text starts with the blank line. */
  lemma FlyCastOutput(tabs: Result<string, string>, client: Result<Client, string>, fetch: Fetch)
    ensures FlyCast(tabs, client, fetch).Success? ==>
              tabs.Success? && client.Success? && StartsWith(FlyCast(tabs, client, fetch).value, "\n\n")
  {
    var r := FlyCast(tabs, client, fetch);
    if r.Success? {
      assert r.value[..2] == "\n\n";
    }
  }

  /** As written, `main` ends with "Failed to fetch any transcripts"
      whenever it gets as far as fetching. */
  lemma AsWrittenFlyCastFails(stdout: string, client: Client)
    requires TranscriptIds(TabUrls(stdout)) != []
    ensures FlyCast(Success(stdout), Success(client), FetchAsWritten) == Failure(NothingFetched)
  {
    var ids := TranscriptIds(TabUrls(stdout));
    AsWrittenFetchesNothing(ids);
    FormattedEmpty(ids, map[]);
    assert TabUrls(stdout) != [];
  }

  /** `main` up to the clipboard, step by step. */
  method FetchFromChromeTabs(tabs: Result<string, string>, client: Result<Client, string>, fetch: Fetch)
    returns (r: Result<string, string>)
    ensures r == FlyCast(tabs, client, fetch)
  {
    if tabs.Failure? {
      return Failure(TabsError(tabs.error));
    }
    var urls := TabUrls(tabs.value);
    if urls == [] {
      return Failure(NoTabs);
    }
    var ids := ExtractTranscriptIds(urls);
    if ids == [] {
      return Failure(NoIds);
    }
    if client.Failure? {
      return Failure("FlyCast Error: " + client.error);
    }
    var m := FetchTranscripts(ids, fetch);
    FetchedMapIsTranscriptsMap(ids, fetch, m);
    var all := CollectTexts(ids, m);
    if all == [] {
      return Failure(NothingFetched);
    }
    return Success("\n\n" + Join(all, "\n\n"));
  }
}
