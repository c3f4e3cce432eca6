/**
  * Which login cookies are kept, and whether the kept ones still satisfy the requirements.
  * `lower` is the rune-by-rune lower-casing of Go's `strings.ToLower`; all that is used of
  * it is that it maps NUL, and nothing else, to NUL. `now` is in nanoseconds.
  */
module CookieFilter {

  datatype Cookie = Cookie(name: string, value: string, domain: string, path: string, expires: real)

  datatype Requirement = Requirement(name: string, suffixes: seq<string>, required: bool, preserve: bool)

  type Lower = char -> char

  ghost predicate KeepsNul(lower: Lower) {
    forall c :: lower(c) == '\0' <==> c == '\0'
  }

  function LowerAll(lower: Lower, s: string): (r: string)
    ensures |r| == |s| && forall i | 0 <= i < |s| :: r[i] == lower(s[i])
  {
    seq(|s|, i requires 0 <= i < |s| => lower(s[i]))
  }

  predicate EndsWith(s: string, t: string) {
    |t| <= |s| && s[|s| - |t|..] == t
  }

  /** Lower-cased, without one leading dot. */
  function Normal(lower: Lower, s: string): string {
    var l := LowerAll(lower, s);
    if |l| > 0 && l[0] == '.' then l[1..] else l
  }

  predicate DomainMatches(lower: Lower, domain: string, suffix: string) {
    Normal(lower, domain) == Normal(lower, suffix) || EndsWith(Normal(lower, domain), "." + Normal(lower, suffix))
  }

  predicate MatchesAny(lower: Lower, domain: string, suffixes: seq<string>) {
    exists i | 0 <= i < |suffixes| :: DomainMatches(lower, domain, suffixes[i])
  }

  predicate Expired(c: Cookie, now: int) {
    c.expires > 0.0 && c.expires.Floor * 1_000_000_000 <= now
  }

  predicate Preserved(lower: Lower, c: Cookie, reqs: seq<Requirement>) {
    exists i | 0 <= i < |reqs| ::
      (reqs[i].required || reqs[i].preserve) && c.name == reqs[i].name && MatchesAny(lower, c.domain, reqs[i].suffixes)
  }

  predicate Kept(lower: Lower, c: Cookie, reqs: seq<Requirement>, now: int) {
    c.name != "" && c.value != "" && !Expired(c, now) && Preserved(lower, c, reqs)
  }

  function WithPath(c: Cookie): Cookie {
    if c.path == "" then c.(path := "/") else c
  }

  function Key(lower: Lower, c: Cookie): string {
    LowerAll(lower, c.name + "\0" + c.domain + "\0" + c.path)
  }

  // ---- Filtering -----------------------------------------------------------------------------

  /** Where a cookie with `key` is in the list, or the list's length. */
  function Find(lower: Lower, list: seq<Cookie>, key: string): (i: nat)
    ensures i <= |list|
    ensures i < |list| ==> Key(lower, list[i]) == key
  {
    if list == [] then 0
    else if Key(lower, list[0]) == key then 0
    else 1 + Find(lower, list[1..], key)
  }

  function Upsert(lower: Lower, list: seq<Cookie>, c: Cookie): seq<Cookie> {
    var i := Find(lower, list, Key(lower, c));
    if i < |list| then list[i := c] else list + [c]
  }

  function Filter(lower: Lower, cookies: seq<Cookie>, reqs: seq<Requirement>, now: int): seq<Cookie> {
    if cookies == [] then []
    else
      var (before, c) := (Filter(lower, cookies[..|cookies| - 1], reqs, now), cookies[|cookies| - 1]);
      if Kept(lower, c, reqs, now) then Upsert(lower, before, WithPath(c)) else before
  }

  ghost predicate DistinctKeys(lower: Lower, list: seq<Cookie>) {
    forall i, j | 0 <= i < j < |list| :: Key(lower, list[i]) != Key(lower, list[j])
  }

  lemma {:induction false} FindFacts(lower: Lower, list: seq<Cookie>, key: string)
    ensures forall j | 0 <= j < Find(lower, list, key) :: Key(lower, list[j]) != key
  {
    if list != [] && Key(lower, list[0]) != key {
      FindFacts(lower, list[1..], key);
      forall j | 0 <= j < Find(lower, list, key) ensures Key(lower, list[j]) != key {
        assert j > 0 ==> list[j] == list[1..][j - 1];
      }
    }
  }

  lemma {:induction false} UpsertFacts(lower: Lower, list: seq<Cookie>, c: Cookie)
    requires DistinctKeys(lower, list)
    ensures DistinctKeys(lower, Upsert(lower, list, c))
    ensures forall x :: x in Upsert(lower, list, c) <==> x == c || (x in list && Key(lower, x) != Key(lower, c))
  {
    var key := Key(lower, c);
    var i, out := Find(lower, list, key), Upsert(lower, list, c);
    FindFacts(lower, list, key);
    assert c in out by { assert i < |out| && out[i] == c; }
    forall x | x in list && Key(lower, x) != key ensures x in out {
      var j :| 0 <= j < |list| && list[j] == x;
      assert out[j] == x;
    }
  }

  ghost predicate Last(lower: Lower, cookies: seq<Cookie>, reqs: seq<Requirement>, now: int, i: nat) {
    i < |cookies| && Kept(lower, cookies[i], reqs, now) &&
    forall j | i < j < |cookies| && Kept(lower, cookies[j], reqs, now) ::
      Key(lower, WithPath(cookies[j])) != Key(lower, WithPath(cookies[i]))
  }

  lemma {:induction false} LastBeforeFinal(lower: Lower, before: seq<Cookie>, c: Cookie, reqs: seq<Requirement>, now: int, i: nat)
    requires Last(lower, before + [c], reqs, now, i) && i < |before|
    ensures Last(lower, before, reqs, now, i)
    ensures Kept(lower, c, reqs, now) ==> Key(lower, WithPath(c)) != Key(lower, WithPath(before[i]))
  {
    var cookies := before + [c];
    assert cookies[|before|] == c && cookies[i] == before[i];
    forall j | i < j < |before| && Kept(lower, before[j], reqs, now)
      ensures Key(lower, WithPath(before[j])) != Key(lower, WithPath(before[i]))
    {
      assert cookies[j] == before[j];
    }
  }

  lemma {:induction false} LastStays(lower: Lower, before: seq<Cookie>, c: Cookie, reqs: seq<Requirement>, now: int, i: nat)
    requires Last(lower, before, reqs, now, i)
    requires Kept(lower, c, reqs, now) ==> Key(lower, WithPath(c)) != Key(lower, WithPath(before[i]))
    ensures Last(lower, before + [c], reqs, now, i)
  {
    var cookies := before + [c];
    forall j | i < j < |cookies| && Kept(lower, cookies[j], reqs, now)
      ensures Key(lower, WithPath(cookies[j])) != Key(lower, WithPath(cookies[i]))
    {
      assert j < |before| ==> cookies[j] == before[j];
    }
  }

  /** One step of the filter: the final cookie, and the earlier result without its key. */
  lemma {:induction false} FilterStep(lower: Lower, before: seq<Cookie>, c: Cookie, reqs: seq<Requirement>, now: int, x: Cookie)
    ensures x in Filter(lower, before + [c], reqs, now)
       <==> (Kept(lower, c, reqs, now) && x == WithPath(c)) ||
            (x in Filter(lower, before, reqs, now) &&
             (Kept(lower, c, reqs, now) ==> Key(lower, x) != Key(lower, WithPath(c))))
  {
    var cookies := before + [c];
    assert cookies[..|cookies| - 1] == before;
    FilterHasDistinctKeys(lower, before, reqs, now);
    if Kept(lower, c, reqs, now) {
      UpsertFacts(lower, Filter(lower, before, reqs, now), WithPath(c));
    }
  }

  lemma {:induction false} FilterHoldsLast(lower: Lower, cookies: seq<Cookie>, reqs: seq<Requirement>, now: int, i: nat)
    requires Last(lower, cookies, reqs, now, i)
    ensures WithPath(cookies[i]) in Filter(lower, cookies, reqs, now)
  {
    var n := |cookies| - 1;
    var before, c := cookies[..n], cookies[n];
    assert cookies == before + [c];
    FilterStep(lower, before, c, reqs, now, WithPath(cookies[i]));
    if i < n {
      LastBeforeFinal(lower, before, c, reqs, now, i);
      FilterHoldsLast(lower, before, reqs, now, i);
    }
  }

  lemma {:induction false} FilterHoldsOnlyLast(lower: Lower, cookies: seq<Cookie>, reqs: seq<Requirement>, now: int, x: Cookie)
    returns (i: nat)
    requires x in Filter(lower, cookies, reqs, now)
    ensures Last(lower, cookies, reqs, now, i) && x == WithPath(cookies[i])
  {
    var n := |cookies| - 1;
    var before, c := cookies[..n], cookies[n];
    assert cookies == before + [c];
    FilterStep(lower, before, c, reqs, now, x);
    if Kept(lower, c, reqs, now) && x == WithPath(c) {
      return n;
    }
    i := FilterHoldsOnlyLast(lower, before, reqs, now, x);
    LastStays(lower, before, c, reqs, now, i);
  }

  lemma {:induction false} FilterHasDistinctKeys(lower: Lower, cookies: seq<Cookie>, reqs: seq<Requirement>, now: int)
    ensures DistinctKeys(lower, Filter(lower, cookies, reqs, now))
  {
    if cookies != [] {
      var before, c := cookies[..|cookies| - 1], cookies[|cookies| - 1];
      FilterHasDistinctKeys(lower, before, reqs, now);
      if Kept(lower, c, reqs, now) {
        UpsertFacts(lower, Filter(lower, before, reqs, now), WithPath(c));
      }
    }
  }

  /** The result holds, once per key, exactly the last kept cookie of that key. */
  lemma {:induction false} FilterKeepsLast(lower: Lower, cookies: seq<Cookie>, reqs: seq<Requirement>, now: int, x: Cookie)
    ensures DistinctKeys(lower, Filter(lower, cookies, reqs, now))
    ensures x in Filter(lower, cookies, reqs, now)
       <==> exists i: nat :: Last(lower, cookies, reqs, now, i) && x == WithPath(cookies[i])
  {
    FilterHasDistinctKeys(lower, cookies, reqs, now);
    if x in Filter(lower, cookies, reqs, now) {
      var i := FilterHoldsOnlyLast(lower, cookies, reqs, now, x);
    }
    if i: nat :| Last(lower, cookies, reqs, now, i) && x == WithPath(cookies[i]) {
      FilterHoldsLast(lower, cookies, reqs, now, i);
    }
  }

  /** The first kept cookie of its key. */
  ghost predicate First(lower: Lower, cookies: seq<Cookie>, reqs: seq<Requirement>, now: int, i: nat) {
    i < |cookies| && Kept(lower, cookies[i], reqs, now) &&
    forall j | 0 <= j < i && Kept(lower, cookies[j], reqs, now) ::
      Key(lower, WithPath(cookies[j])) != Key(lower, WithPath(cookies[i]))
  }

  lemma {:induction false} UpsertKeepsPlaces(lower: Lower, list: seq<Cookie>, c: Cookie)
    ensures |list| <= |Upsert(lower, list, c)|
    ensures forall k | 0 <= k < |list| :: Key(lower, Upsert(lower, list, c)[k]) == Key(lower, list[k])
  {
  }

  lemma {:induction false} PlacesStay(lower: Lower, cookies: seq<Cookie>, reqs: seq<Requirement>, now: int, m: nat, n: nat)
    requires m <= n <= |cookies|
    ensures var (a, b) := (Filter(lower, cookies[..m], reqs, now), Filter(lower, cookies[..n], reqs, now));
            |a| <= |b| && forall k | 0 <= k < |a| :: Key(lower, b[k]) == Key(lower, a[k])
  {
    if m < n {
      PlacesStay(lower, cookies, reqs, now, m, n - 1);
      assert cookies[..n][..n - 1] == cookies[..n - 1];
      UpsertKeepsPlaces(lower, Filter(lower, cookies[..n - 1], reqs, now), WithPath(cookies[n - 1]));
    }
  }

  lemma {:induction false} FirstIsNew(lower: Lower, cookies: seq<Cookie>, reqs: seq<Requirement>, now: int, i: nat)
    requires First(lower, cookies, reqs, now, i)
    ensures var (a, c) := (Filter(lower, cookies[..i], reqs, now), WithPath(cookies[i]));
            Filter(lower, cookies[..i + 1], reqs, now) == a + [c]
  {
    var before, c := cookies[..i], WithPath(cookies[i]);
    var a := Filter(lower, before, reqs, now);
    assert cookies[..i + 1][..i] == before;
    forall x | x in a ensures Key(lower, x) != Key(lower, c) {
      var j := FilterHoldsOnlyLast(lower, before, reqs, now, x);
      assert cookies[j] == before[j];
    }
  }

  /** Each key keeps the place of its first kept cookie: after the keys met before it. */
  lemma {:induction false} FilterKeepsOrder(lower: Lower, cookies: seq<Cookie>, reqs: seq<Requirement>, now: int, i: nat)
    requires First(lower, cookies, reqs, now, i)
    ensures var (place, filtered) := (|Filter(lower, cookies[..i], reqs, now)|, Filter(lower, cookies, reqs, now));
            place < |filtered| && Key(lower, filtered[place]) == Key(lower, WithPath(cookies[i]))
  {
    FirstIsNew(lower, cookies, reqs, now, i);
    PlacesStay(lower, cookies, reqs, now, i + 1, |cookies|);
    assert cookies[..|cookies|] == cookies;
  }

  // ---- Validation ------------------------------------------------------------------------------

  predicate Satisfies(lower: Lower, c: Cookie, req: Requirement, now: int) {
    c.name == req.name && c.value != "" && !Expired(c, now) && MatchesAny(lower, c.domain, req.suffixes)
  }

  predicate Has(lower: Lower, cookies: seq<Cookie>, req: Requirement, now: int) {
    exists i | 0 <= i < |cookies| :: Satisfies(lower, cookies[i], req, now)
  }

  function Missing(lower: Lower, cookies: seq<Cookie>, reqs: seq<Requirement>, now: int): seq<string> {
    if reqs == [] then []
    else
      var (before, req) := (Missing(lower, cookies, reqs[..|reqs| - 1], now), reqs[|reqs| - 1]);
      if req.required && !Has(lower, cookies, req, now) then before + [req.name] else before
  }

  predicate AnyRequired(reqs: seq<Requirement>) {
    exists i | 0 <= i < |reqs| :: reqs[i].required
  }

  function Validate(lower: Lower, cookies: seq<Cookie>, reqs: seq<Requirement>, now: int): (bool, seq<string>) {
    var missing := Missing(lower, cookies, reqs, now);
    (AnyRequired(reqs) && missing == [], missing)
  }

  // ---- When the two agree ------------------------------------------------------------------------

  predicate NoNul(s: string) { forall i | 0 <= i < |s| :: s[i] != '\0' }

  predicate Plain(cookies: seq<Cookie>) {
    forall i | 0 <= i < |cookies| :: NoNul(cookies[i].name) && NoNul(cookies[i].domain) && NoNul(cookies[i].path)
  }

  ghost predicate Agree(lower: Lower, reqs: seq<Requirement>, now: int) {
    forall cookies | Plain(cookies) ::
      Validate(lower, Filter(lower, cookies, reqs, now), reqs, now) == Validate(lower, cookies, reqs, now)
  }

  /** One domain suffix covers the other, so some domain matches both. */
  predicate Overlap(lower: Lower, a: string, b: string) {
    EndsWith("." + Normal(lower, a), "." + Normal(lower, b)) || EndsWith("." + Normal(lower, b), "." + Normal(lower, a))
  }

  predicate SuffixesOverlap(lower: Lower, a: seq<string>, b: seq<string>) {
    exists i, j | 0 <= i < |a| && 0 <= j < |b| :: NoNul(a[i]) && NoNul(b[j]) && Overlap(lower, a[i], b[j])
  }

  predicate Nameless(r: Requirement) {
    r.required && r.name == "" && exists i | 0 <= i < |r.suffixes| :: NoNul(r.suffixes[i])
  }

  /** `q`'s cookie can take the place of `r`'s: same name but for case, and a common domain. */
  predicate Clash(lower: Lower, r: Requirement, q: Requirement) {
    && r.required && (q.required || q.preserve)
    && r.name != q.name && LowerAll(lower, r.name) == LowerAll(lower, q.name)
    && NoNul(r.name) && NoNul(q.name)
    && SuffixesOverlap(lower, r.suffixes, q.suffixes)
  }

  predicate Unambiguous(lower: Lower, reqs: seq<Requirement>) {
    && (forall i | 0 <= i < |reqs| :: !Nameless(reqs[i]))
    && (forall i, j | 0 <= i < |reqs| && 0 <= j < |reqs| :: !Clash(lower, reqs[i], reqs[j]))
  }

  // -- Strings

  lemma {:induction false} MatchIsSuffix(lower: Lower, domain: string, suffix: string)
    ensures DomainMatches(lower, domain, suffix)
       <==> EndsWith("." + Normal(lower, domain), "." + Normal(lower, suffix))
  {
    DottedSuffix(Normal(lower, domain), Normal(lower, suffix));
  }

  lemma {:induction false} DottedSuffix(d: string, s: string)
    ensures d == s || EndsWith(d, "." + s) <==> EndsWith("." + d, "." + s)
  {
    var dd, ss := "." + d, "." + s;
    assert dd[1..] == d && ss[1..] == s;
    if |ss| < |dd| {
      assert dd[|dd| - |ss|..] == d[|d| - |ss|..];
    } else if |ss| == |dd| {
      assert dd[|dd| - |ss|..] == dd;
    }
  }

  lemma {:induction false} SuffixesNest(x: string, a: string, b: string)
    requires EndsWith(x, a) && EndsWith(x, b)
    ensures EndsWith(a, b) || EndsWith(b, a)
  {
    if |a| <= |b| {
      assert b[|b| - |a|..] == x[|x| - |a|..];
    } else {
      assert a[|a| - |b|..] == x[|x| - |b|..];
    }
  }

  /** Up to the first NUL, equal strings have equal parts. */
  lemma {:induction false} SplitAtNul(a: string, b: string, c: string, d: string)
    requires NoNul(a) && NoNul(c) && a + "\0" + b == c + "\0" + d
    ensures a == c && b == d
  {
    var s, t := a + "\0" + b, c + "\0" + d;
    assert s[|a|] == '\0' && t[|c|] == '\0';
    assert a == s[..|a|] && c == t[..|c|];
    assert forall i | 0 <= i < |a| :: s[i] == a[i];
    assert forall i | 0 <= i < |c| :: t[i] == c[i];
    assert |a| == |c|;
    assert b == s[|a| + 1..] && d == t[|c| + 1..];
  }

  lemma {:induction false} LowerKeepsNoNul(lower: Lower, s: string)
    requires KeepsNul(lower)
    ensures NoNul(LowerAll(lower, s)) <==> NoNul(s)
  {
    if NoNul(LowerAll(lower, s)) {
      forall i | 0 <= i < |s| ensures s[i] != '\0' {
        assert LowerAll(lower, s)[i] == lower(s[i]);
      }
    }
  }

  /** Two cookies without NULs share a key exactly when their fields differ at most in case. */
  lemma {:induction false} KeyParts(lower: Lower, x: Cookie, y: Cookie)
    requires KeepsNul(lower) && Plain([x, y]) && Key(lower, x) == Key(lower, y)
    ensures LowerAll(lower, x.name) == LowerAll(lower, y.name)
    ensures LowerAll(lower, x.domain) == LowerAll(lower, y.domain)
    ensures LowerAll(lower, x.path) == LowerAll(lower, y.path)
  {
    assert Plain([x, y]) && [x, y][0] == x && [x, y][1] == y;
    KeyShape(lower, x);
    KeyShape(lower, y);
    forall s | s in {x.name, y.name, x.domain, y.domain} ensures NoNul(LowerAll(lower, s)) {
      LowerKeepsNoNul(lower, s);
    }
    SplitAtNul(LowerAll(lower, x.name), LowerAll(lower, x.domain) + "\0" + LowerAll(lower, x.path),
               LowerAll(lower, y.name), LowerAll(lower, y.domain) + "\0" + LowerAll(lower, y.path));
    SplitAtNul(LowerAll(lower, x.domain), LowerAll(lower, x.path), LowerAll(lower, y.domain), LowerAll(lower, y.path));
  }

  lemma {:induction false} KeyShape(lower: Lower, c: Cookie)
    requires KeepsNul(lower)
    ensures Key(lower, c) ==
            LowerAll(lower, c.name) + "\0" + (LowerAll(lower, c.domain) + "\0" + LowerAll(lower, c.path))
  {
  }

  // -- Unambiguous requirements agree

  lemma {:induction false} SameDomainMatches(lower: Lower, d: string, e: string, suffixes: seq<string>)
    requires LowerAll(lower, d) == LowerAll(lower, e)
    ensures MatchesAny(lower, d, suffixes) == MatchesAny(lower, e, suffixes)
  {
    assert Normal(lower, d) == Normal(lower, e);
    forall i | 0 <= i < |suffixes| ensures DomainMatches(lower, d, suffixes[i]) == DomainMatches(lower, e, suffixes[i]) {
    }
  }

  lemma {:induction false} NormalNoNul(lower: Lower, domain: string, suffix: string)
    requires KeepsNul(lower) && NoNul(domain) && DomainMatches(lower, domain, suffix)
    ensures NoNul(suffix)
  {
    var d, s, l := Normal(lower, domain), Normal(lower, suffix), LowerAll(lower, suffix);
    LowerKeepsNoNul(lower, domain);
    LowerKeepsNoNul(lower, suffix);
    assert NoNul(d);
    assert NoNul(s) by {
      if d != s {
        var t := "." + s;
        assert t == d[|d| - |t|..] && t[1..] == s;
      }
    }
    forall i | 0 <= i < |l| ensures l[i] != '\0' {
      if |l| > 0 && l[0] == '.' {
        if i > 0 { assert l[i] == s[i - 1]; }
      } else {
        assert l[i] == s[i];
      }
    }
  }

  lemma {:induction false} CommonDomainOverlaps(lower: Lower, domain: string, a: seq<string>, b: seq<string>)
    requires KeepsNul(lower) && NoNul(domain)
    requires MatchesAny(lower, domain, a) && MatchesAny(lower, domain, b)
    ensures SuffixesOverlap(lower, a, b)
  {
    var i :| 0 <= i < |a| && DomainMatches(lower, domain, a[i]);
    var j :| 0 <= j < |b| && DomainMatches(lower, domain, b[j]);
    MatchIsSuffix(lower, domain, a[i]);
    MatchIsSuffix(lower, domain, b[j]);
    SuffixesNest("." + Normal(lower, domain), "." + Normal(lower, a[i]), "." + Normal(lower, b[j]));
    NormalNoNul(lower, domain, a[i]);
    NormalNoNul(lower, domain, b[j]);
  }

  /** Whatever satisfies a requirement after filtering did so before. */
  lemma {:induction false} FilterAddsNothing(lower: Lower, cookies: seq<Cookie>, reqs: seq<Requirement>, req: Requirement, now: int)
    requires Has(lower, Filter(lower, cookies, reqs, now), req, now)
    ensures Has(lower, cookies, req, now)
  {
    var filtered := Filter(lower, cookies, reqs, now);
    var k :| 0 <= k < |filtered| && Satisfies(lower, filtered[k], req, now);
    var i := FilterHoldsOnlyLast(lower, cookies, reqs, now, filtered[k]);
    assert Satisfies(lower, cookies[i], req, now);
  }

  lemma {:induction false} SomeLast(lower: Lower, cookies: seq<Cookie>, reqs: seq<Requirement>, now: int, i: nat) returns (k: nat)
    requires i < |cookies| && Kept(lower, cookies[i], reqs, now)
    ensures Last(lower, cookies, reqs, now, k)
    ensures Key(lower, WithPath(cookies[k])) == Key(lower, WithPath(cookies[i]))
    decreases |cookies| - i
  {
    if j: nat :| i < j < |cookies| && Kept(lower, cookies[j], reqs, now) &&
                 Key(lower, WithPath(cookies[j])) == Key(lower, WithPath(cookies[i])) {
      k := SomeLast(lower, cookies, reqs, now, j);
    } else {
      k := i;
    }
  }

  /** A kept cookie that replaces a satisfying one has the same name, so it satisfies the requirement too. */
  lemma {:induction false} ReplacementSatisfies(lower: Lower, c: Cookie, d: Cookie, reqs: seq<Requirement>, r: nat, now: int)
    requires KeepsNul(lower) && NoNul(c.domain) && NoNul(d.domain) && Unambiguous(lower, reqs)
    requires r < |reqs| && reqs[r].required && NoNul(c.name) && NoNul(d.name)
    requires Satisfies(lower, c, reqs[r], now) && Kept(lower, d, reqs, now)
    requires LowerAll(lower, d.name) == LowerAll(lower, c.name) && LowerAll(lower, d.domain) == LowerAll(lower, c.domain)
    ensures Satisfies(lower, d, reqs[r], now)
  {
    SameDomainMatches(lower, c.domain, d.domain, reqs[r].suffixes);
    var q :| 0 <= q < |reqs| && (reqs[q].required || reqs[q].preserve) && d.name == reqs[q].name
             && MatchesAny(lower, d.domain, reqs[q].suffixes);
    CommonDomainOverlaps(lower, d.domain, reqs[r].suffixes, reqs[q].suffixes);
    assert !Clash(lower, reqs[r], reqs[q]);
  }

  lemma {:induction false} SatisfyingIsKept(lower: Lower, c: Cookie, reqs: seq<Requirement>, r: nat, now: int)
    requires KeepsNul(lower) && NoNul(c.domain) && Unambiguous(lower, reqs)
    requires r < |reqs| && reqs[r].required && Satisfies(lower, c, reqs[r], now)
    ensures Kept(lower, c, reqs, now)
  {
    var i :| 0 <= i < |reqs[r].suffixes| && DomainMatches(lower, c.domain, reqs[r].suffixes[i]);
    NormalNoNul(lower, c.domain, reqs[r].suffixes[i]);
    assert !Nameless(reqs[r]);
  }

  lemma {:induction false} LastReplacementSatisfies(
      lower: Lower, cookies: seq<Cookie>, reqs: seq<Requirement>, r: nat, now: int, i: nat) returns (k: nat)
    requires KeepsNul(lower) && Plain(cookies) && Unambiguous(lower, reqs)
    requires r < |reqs| && reqs[r].required && i < |cookies| && Satisfies(lower, cookies[i], reqs[r], now)
    ensures Last(lower, cookies, reqs, now, k) && Satisfies(lower, WithPath(cookies[k]), reqs[r], now)
  {
    SatisfyingIsKept(lower, cookies[i], reqs, r, now);
    k := SomeLast(lower, cookies, reqs, now, i);
    KeyParts(lower, WithPath(cookies[k]), WithPath(cookies[i]));
    ReplacementSatisfies(lower, cookies[i], cookies[k], reqs, r, now);
  }

  lemma {:induction false} FilterLosesNothing(lower: Lower, cookies: seq<Cookie>, reqs: seq<Requirement>, r: nat, now: int)
    requires KeepsNul(lower) && Plain(cookies) && Unambiguous(lower, reqs)
    requires r < |reqs| && reqs[r].required && Has(lower, cookies, reqs[r], now)
    ensures Has(lower, Filter(lower, cookies, reqs, now), reqs[r], now)
  {
    var i :| 0 <= i < |cookies| && Satisfies(lower, cookies[i], reqs[r], now);
    var k := LastReplacementSatisfies(lower, cookies, reqs, r, now, i);
    FilterHoldsLast(lower, cookies, reqs, now, k);
    InList(lower, Filter(lower, cookies, reqs, now), WithPath(cookies[k]), reqs[r], now);
  }

  lemma {:induction false} InList(lower: Lower, list: seq<Cookie>, c: Cookie, req: Requirement, now: int)
    requires c in list && Satisfies(lower, c, req, now)
    ensures Has(lower, list, req, now)
  {
    var i :| 0 <= i < |list| && list[i] == c;
    assert Satisfies(lower, list[i], req, now);
  }

  lemma {:induction false} MissingAgrees(lower: Lower, a: seq<Cookie>, b: seq<Cookie>, reqs: seq<Requirement>, now: int)
    requires forall r | 0 <= r < |reqs| && reqs[r].required :: Has(lower, a, reqs[r], now) == Has(lower, b, reqs[r], now)
    ensures Missing(lower, a, reqs, now) == Missing(lower, b, reqs, now)
  {
    if reqs != [] {
      MissingAgrees(lower, a, b, reqs[..|reqs| - 1], now);
    }
  }

  lemma {:induction false} UnambiguousAgree(lower: Lower, reqs: seq<Requirement>, now: int)
    requires KeepsNul(lower) && Unambiguous(lower, reqs)
    ensures Agree(lower, reqs, now)
  {
    forall cookies | Plain(cookies)
      ensures Validate(lower, Filter(lower, cookies, reqs, now), reqs, now) == Validate(lower, cookies, reqs, now)
    {
      var filtered := Filter(lower, cookies, reqs, now);
      forall r | 0 <= r < |reqs| && reqs[r].required
        ensures Has(lower, filtered, reqs[r], now) == Has(lower, cookies, reqs[r], now)
      {
        if Has(lower, cookies, reqs[r], now) { FilterLosesNothing(lower, cookies, reqs, r, now); }
        if Has(lower, filtered, reqs[r], now) { FilterAddsNothing(lower, cookies, reqs, reqs[r], now); }
      }
      MissingAgrees(lower, filtered, cookies, reqs, now);
    }
  }

  // -- Ambiguous requirements disagree

  lemma {:induction false} MissingShrinks(lower: Lower, a: seq<Cookie>, b: seq<Cookie>, reqs: seq<Requirement>, now: int)
    requires forall r | 0 <= r < |reqs| && Has(lower, a, reqs[r], now) :: Has(lower, b, reqs[r], now)
    ensures |Missing(lower, b, reqs, now)| <= |Missing(lower, a, reqs, now)|
    ensures (exists r | 0 <= r < |reqs| ::
               reqs[r].required && Has(lower, b, reqs[r], now) && !Has(lower, a, reqs[r], now))
       ==> |Missing(lower, b, reqs, now)| < |Missing(lower, a, reqs, now)|
  {
    if reqs != [] {
      MissingShrinks(lower, a, b, reqs[..|reqs| - 1], now);
      if r :| 0 <= r < |reqs| && reqs[r].required && Has(lower, b, reqs[r], now) && !Has(lower, a, reqs[r], now) {
        assert r < |reqs| - 1 ==> reqs[..|reqs| - 1][r] == reqs[r];
      }
    }
  }

  /** A cookie that satisfies a required requirement before and not after filtering shows up in the missing list. */
  lemma {:induction false} LossShows(lower: Lower, cookies: seq<Cookie>, reqs: seq<Requirement>, r: nat, now: int)
    requires r < |reqs| && reqs[r].required && Plain(cookies)
    requires Has(lower, cookies, reqs[r], now) && !Has(lower, Filter(lower, cookies, reqs, now), reqs[r], now)
    ensures !Agree(lower, reqs, now)
  {
    var filtered := Filter(lower, cookies, reqs, now);
    forall k | 0 <= k < |reqs| && Has(lower, filtered, reqs[k], now) ensures Has(lower, cookies, reqs[k], now) {
      FilterAddsNothing(lower, cookies, reqs, reqs[k], now);
    }
    MissingShrinks(lower, filtered, cookies, reqs, now);
    assert Validate(lower, filtered, reqs, now).1 != Validate(lower, cookies, reqs, now).1;
  }

  lemma {:induction false} NamelessDisagrees(lower: Lower, reqs: seq<Requirement>, r: nat, now: int)
    requires r < |reqs| && Nameless(reqs[r])
    ensures !Agree(lower, reqs, now)
  {
    var i :| 0 <= i < |reqs[r].suffixes| && NoNul(reqs[r].suffixes[i]);
    var c := Cookie("", "v", reqs[r].suffixes[i], "", 0.0);
    assert DomainMatches(lower, c.domain, reqs[r].suffixes[i]);
    assert [c][..0] == [];
    assert Filter(lower, [c], reqs, now) == [];
    assert Satisfies(lower, [c][0], reqs[r], now);
    LossShows(lower, [c], reqs, r, now);
  }

  lemma {:induction false} OverlapMatches(lower: Lower, a: string, b: string) returns (domain: string)
    requires Overlap(lower, a, b) && NoNul(a) && NoNul(b)
    ensures NoNul(domain) && DomainMatches(lower, domain, a) && DomainMatches(lower, domain, b)
  {
    domain := if EndsWith("." + Normal(lower, a), "." + Normal(lower, b)) then a else b;
    MatchIsSuffix(lower, domain, a);
    MatchIsSuffix(lower, domain, b);
  }

  lemma {:induction false} CommonDomain(lower: Lower, a: seq<string>, b: seq<string>) returns (domain: string)
    requires SuffixesOverlap(lower, a, b)
    ensures NoNul(domain) && MatchesAny(lower, domain, a) && MatchesAny(lower, domain, b)
  {
    var i, j :| 0 <= i < |a| && 0 <= j < |b| && NoNul(a[i]) && NoNul(b[j]) && Overlap(lower, a[i], b[j]);
    domain := OverlapMatches(lower, a[i], b[j]);
    SuffixMatches(lower, domain, a, i);
    SuffixMatches(lower, domain, b, j);
  }

  lemma {:induction false} ReplacedIsLost(lower: Lower, x: Cookie, y: Cookie, reqs: seq<Requirement>, r: nat, now: int)
    requires r < |reqs| && reqs[r].required && Plain([x, y])
    requires Kept(lower, x, reqs, now) && Kept(lower, y, reqs, now)
    requires LowerAll(lower, x.name) == LowerAll(lower, y.name) && x.domain == y.domain && x.path == y.path
    requires Satisfies(lower, x, reqs[r], now) && y.name != reqs[r].name
    ensures !Agree(lower, reqs, now)
  {
    SecondReplacesFirst(lower, x, y, reqs, now);
    InList(lower, [x, y], x, reqs[r], now);
    assert !Has(lower, [WithPath(y)], reqs[r], now);
    LossShows(lower, [x, y], reqs, r, now);
  }

  lemma {:induction false} ClashDisagrees(lower: Lower, reqs: seq<Requirement>, r: nat, q: nat, now: int)
    requires r < |reqs| && q < |reqs| && Clash(lower, reqs[r], reqs[q])
    ensures !Agree(lower, reqs, now)
  {
    var domain := CommonDomain(lower, reqs[r].suffixes, reqs[q].suffixes);
    ClashAt(lower, reqs, r, q, domain, now);
  }

  lemma {:induction false} ClashAt(lower: Lower, reqs: seq<Requirement>, r: nat, q: nat, domain: string, now: int)
    requires r < |reqs| && q < |reqs| && reqs[r].required && (reqs[q].required || reqs[q].preserve)
    requires reqs[r].name != reqs[q].name && LowerAll(lower, reqs[r].name) == LowerAll(lower, reqs[q].name)
    requires NoNul(reqs[r].name) && NoNul(reqs[q].name) && NoNul(domain)
    requires MatchesAny(lower, domain, reqs[r].suffixes) && MatchesAny(lower, domain, reqs[q].suffixes)
    ensures !Agree(lower, reqs, now)
  {
    var x, y := Cookie(reqs[r].name, "v", domain, "", 0.0), Cookie(reqs[q].name, "v", domain, "", 0.0);
    assert x.name != "" && y.name != "" by {
      assert |LowerAll(lower, x.name)| == |LowerAll(lower, y.name)|;
    }
    NamedIsKept(lower, x, reqs, r, now);
    NamedIsKept(lower, y, reqs, q, now);
    ReplacedIsLost(lower, x, y, reqs, r, now);
  }

  lemma {:induction false} SuffixMatches(lower: Lower, domain: string, suffixes: seq<string>, i: nat)
    requires i < |suffixes| && DomainMatches(lower, domain, suffixes[i])
    ensures MatchesAny(lower, domain, suffixes)
  {
  }

  lemma {:induction false} NamedIsKept(lower: Lower, c: Cookie, reqs: seq<Requirement>, r: nat, now: int)
    requires r < |reqs| && (reqs[r].required || reqs[r].preserve)
    requires c.name == reqs[r].name && c.name != "" && c.value != "" && c.expires == 0.0
    requires MatchesAny(lower, c.domain, reqs[r].suffixes)
    ensures Kept(lower, c, reqs, now)
  {
  }

  lemma {:induction false} FilterOne(lower: Lower, c: Cookie, reqs: seq<Requirement>, now: int)
    requires Kept(lower, c, reqs, now)
    ensures Filter(lower, [c], reqs, now) == [WithPath(c)]
  {
    assert [c][..0] == [];
    assert Filter(lower, [], reqs, now) == [];
  }

  lemma {:induction false} SameKey(lower: Lower, x: Cookie, y: Cookie)
    requires LowerAll(lower, x.name) == LowerAll(lower, y.name) && x.domain == y.domain && x.path == y.path
    ensures Key(lower, x) == Key(lower, y)
  {
    var rest := "\0" + x.domain + "\0" + x.path;
    LowerConcat(lower, x.name, rest);
    LowerConcat(lower, y.name, rest);
    assert x.name + rest == x.name + "\0" + x.domain + "\0" + x.path;
    assert y.name + rest == y.name + "\0" + y.domain + "\0" + y.path;
  }

  lemma {:induction false} LowerConcat(lower: Lower, a: string, b: string)
    ensures LowerAll(lower, a + b) == LowerAll(lower, a) + LowerAll(lower, b)
  {
  }

  lemma {:induction false} SecondReplacesFirst(lower: Lower, x: Cookie, y: Cookie, reqs: seq<Requirement>, now: int)
    requires Kept(lower, x, reqs, now) && Kept(lower, y, reqs, now)
    requires LowerAll(lower, x.name) == LowerAll(lower, y.name) && x.domain == y.domain && x.path == y.path
    ensures Filter(lower, [x, y], reqs, now) == [WithPath(y)]
  {
    var first, second := WithPath(x), WithPath(y);
    FilterOne(lower, x, reqs, now);
    assert [x, y][..1] == [x];
    SameKey(lower, first, second);
    assert Find(lower, [first], Key(lower, second)) == 0;
    assert Upsert(lower, [first], second) == [second];
  }

  /** Filtering agrees with validation, on all cookie lists without NULs, exactly when the requirements are unambiguous. */
  lemma {:induction false} AgreeExactlyWhenUnambiguous(lower: Lower, reqs: seq<Requirement>, now: int)
    requires KeepsNul(lower)
    ensures Agree(lower, reqs, now) <==> Unambiguous(lower, reqs)
  {
    if Unambiguous(lower, reqs) {
      UnambiguousAgree(lower, reqs, now);
    } else if r :| 0 <= r < |reqs| && Nameless(reqs[r]) {
      NamelessDisagrees(lower, reqs, r, now);
    } else {
      var r, q :| 0 <= r < |reqs| && 0 <= q < |reqs| && Clash(lower, reqs[r], reqs[q]);
      ClashDisagrees(lower, reqs, r, q, now);
    }
  }

  // ---- The loops -----------------------------------------------------------------------------------

  ghost predicate Indexes(lower: Lower, seen: map<string, nat>, list: seq<Cookie>) {
    && (forall key | key in seen :: seen[key] < |list| && Key(lower, list[seen[key]]) == key)
    && (forall k | 0 <= k < |list| :: Key(lower, list[k]) in seen)
    && DistinctKeys(lower, list)
  }

  lemma {:induction false} IndexFinds(lower: Lower, seen: map<string, nat>, list: seq<Cookie>, key: string)
    requires Indexes(lower, seen, list)
    ensures Find(lower, list, key) == if key in seen then seen[key] else |list|
  {
    FindFacts(lower, list, key);
    var i := Find(lower, list, key);
    if i < |list| { assert Key(lower, list[i]) == key; }
  }

  lemma {:induction false} IndexStays(lower: Lower, seen: map<string, nat>, list: seq<Cookie>, c: Cookie)
    requires Indexes(lower, seen, list)
    ensures var key := Key(lower, c);
            Indexes(lower, if key in seen then seen else seen[key := |list|], Upsert(lower, list, c))
  {
    IndexFinds(lower, seen, list, Key(lower, c));
    UpsertFacts(lower, list, c);
  }

  /** `seen` maps each key to where it is in the result; a repeated key replaces in place. */
  method FilterPreserved(lower: Lower, cookies: seq<Cookie>, reqs: seq<Requirement>, now: int)
    returns (filtered: seq<Cookie>)
    ensures filtered == Filter(lower, cookies, reqs, now)
  {
    filtered := [];
    var seen: map<string, nat> := map[];
    for i := 0 to |cookies|
      invariant filtered == Filter(lower, cookies[..i], reqs, now)
      invariant Indexes(lower, seen, filtered)
    {
      assert cookies[..i + 1][..i] == cookies[..i];
      if !Kept(lower, cookies[i], reqs, now) {
        continue;
      }
      var cookie := WithPath(cookies[i]);
      var key := Key(lower, cookie);
      IndexFinds(lower, seen, filtered, key);
      IndexStays(lower, seen, filtered, cookie);
      if key in seen {
        filtered := filtered[seen[key] := cookie];
        continue;
      }
      seen := seen[key := |filtered|];
      filtered := filtered + [cookie];
    }
    assert cookies[..|cookies|] == cookies;
  }

  // -- What the answers mean, on the fields of cookies and requirements

  /** Without a time to expire, or with one after `now`. */
  predicate Unexpired(c: Cookie, now: int) { c.expires <= 0.0 || c.expires.Floor * 1_000_000_000 > now }

  /** The domain is one of the suffixes or below it, up to case and one leading dot. */
  predicate Under(lower: Lower, domain: string, suffixes: seq<string>) {
    exists j | 0 <= j < |suffixes| :: EndsWith("." + Normal(lower, domain), "." + Normal(lower, suffixes[j]))
  }

  lemma {:induction false} UnderIsMatching(lower: Lower, domain: string, suffixes: seq<string>)
    ensures MatchesAny(lower, domain, suffixes) <==> Under(lower, domain, suffixes)
  {
    forall j | 0 <= j < |suffixes|
      ensures DomainMatches(lower, domain, suffixes[j])
         <==> EndsWith("." + Normal(lower, domain), "." + Normal(lower, suffixes[j]))
    {
      MatchIsSuffix(lower, domain, suffixes[j]);
    }
  }

  /** One leading dot of either side does not matter, and neither does case. */
  lemma {:induction false} LeadingDotIsIgnored(lower: Lower, domain: string, suffix: string)
    requires lower('.') == '.' && (domain == "" || lower(domain[0]) != '.') && (suffix == "" || lower(suffix[0]) != '.')
    ensures DomainMatches(lower, "." + domain, suffix) == DomainMatches(lower, domain, suffix)
    ensures DomainMatches(lower, domain, "." + suffix) == DomainMatches(lower, domain, suffix)
    ensures Normal(lower, domain) == LowerAll(lower, domain)
  {
    DotDrops(lower, domain);
    DotDrops(lower, suffix);
  }

  lemma {:induction false} DotDrops(lower: Lower, s: string)
    requires lower('.') == '.' && (s == "" || lower(s[0]) != '.')
    ensures Normal(lower, "." + s) == Normal(lower, s) == LowerAll(lower, s)
  {
    var l := LowerAll(lower, "." + s);
    assert l[1..] == LowerAll(lower, s);
  }

  /** A cookie with the requirement's name, a value, time left and a domain it allows. */
  predicate Fulfilled(lower: Lower, cookies: seq<Cookie>, req: Requirement, now: int) {
    exists i | 0 <= i < |cookies| ::
      && cookies[i].name == req.name && cookies[i].value != "" && Unexpired(cookies[i], now)
      && Under(lower, cookies[i].domain, req.suffixes)
  }

  lemma {:induction false} HasIsFulfilled(lower: Lower, cookies: seq<Cookie>, req: Requirement, now: int)
    ensures Has(lower, cookies, req, now) <==> Fulfilled(lower, cookies, req, now)
  {
    forall i | 0 <= i < |cookies|
      ensures Satisfies(lower, cookies[i], req, now) <==>
              && cookies[i].name == req.name && cookies[i].value != "" && Unexpired(cookies[i], now)
              && Under(lower, cookies[i].domain, req.suffixes)
    {
      UnderIsMatching(lower, cookies[i].domain, req.suffixes);
    }
  }

  /** Which cookies are kept, and what of each. */
  lemma {:induction false} KeptExactly(lower: Lower, c: Cookie, reqs: seq<Requirement>, now: int)
    ensures Kept(lower, c, reqs, now) <==>
            && c.name != "" && c.value != "" && Unexpired(c, now)
            && exists i | 0 <= i < |reqs| ::
                 (reqs[i].required || reqs[i].preserve) && reqs[i].name == c.name && Under(lower, c.domain, reqs[i].suffixes)
    ensures WithPath(c) == Cookie(c.name, c.value, c.domain, if c.path == "" then "/" else c.path, c.expires)
  {
    forall i | 0 <= i < |reqs| ensures MatchesAny(lower, c.domain, reqs[i].suffixes) <==> Under(lower, c.domain, reqs[i].suffixes) {
      UnderIsMatching(lower, c.domain, reqs[i].suffixes);
    }
  }

  /** `missing` names, in order, exactly the required requirements without such a cookie; `which` are their numbers. */
  ghost predicate Lists(missing: seq<string>, which: seq<nat>, lower: Lower, cookies: seq<Cookie>, reqs: seq<Requirement>, now: int) {
    && |missing| == |which|
    && (forall j, k | 0 <= j < k < |which| :: which[j] < which[k])
    && (forall k | 0 <= k < |which| :: which[k] < |reqs| && missing[k] == reqs[which[k]].name)
    && (forall i: nat :: i in which <==> i < |reqs| && reqs[i].required && !Fulfilled(lower, cookies, reqs[i], now))
  }

  lemma {:induction false} ListsNext(missing: seq<string>, which: seq<nat>, lower: Lower, cookies: seq<Cookie>,
                                     before: seq<Requirement>, req: Requirement, now: int)
    requires Lists(missing, which, lower, cookies, before, now)
    ensures if req.required && !Fulfilled(lower, cookies, req, now)
            then Lists(missing + [req.name], which + [|before|], lower, cookies, before + [req], now)
            else Lists(missing, which, lower, cookies, before + [req], now)
  {
  }

  lemma {:induction false} AnyRequiredNext(reqs: seq<Requirement>, i: nat)
    requires i < |reqs|
    ensures AnyRequired(reqs[..i + 1]) <==> AnyRequired(reqs[..i]) || reqs[i].required
  {
    if reqs[i].required {
      assert reqs[..i + 1][i].required;
    } else if k :| 0 <= k < i && reqs[..i][k].required {
      assert reqs[..i + 1][k].required;
    }
  }

  lemma {:induction false} NextRequirement(missing: seq<string>, which: seq<nat>, lower: Lower, cookies: seq<Cookie>,
                                           reqs: seq<Requirement>, i: nat, now: int)
    requires i < |reqs| && missing == Missing(lower, cookies, reqs[..i], now)
    requires Lists(missing, which, lower, cookies, reqs[..i], now)
    ensures var lacks := reqs[i].required && !Has(lower, cookies, reqs[i], now);
            var (names, numbers) := if lacks then (missing + [reqs[i].name], which + [i]) else (missing, which);
            names == Missing(lower, cookies, reqs[..i + 1], now) && Lists(names, numbers, lower, cookies, reqs[..i + 1], now)
  {
    assert reqs[..i + 1] == reqs[..i] + [reqs[i]] && reqs[..i + 1][..i] == reqs[..i];
    ListsNext(missing, which, lower, cookies, reqs[..i], reqs[i], now);
    HasIsFulfilled(lower, cookies, reqs[i], now);
  }

  lemma {:induction false} NoneListed(missing: seq<string>, which: seq<nat>, lower: Lower, cookies: seq<Cookie>,
                                      reqs: seq<Requirement>, now: int)
    requires Lists(missing, which, lower, cookies, reqs, now)
    ensures |missing| == 0 <==> forall i | 0 <= i < |reqs| && reqs[i].required :: Fulfilled(lower, cookies, reqs[i], now)
  {
    if |which| > 0 {
      assert which[0] in which;
    }
  }

  /** The verdict, and the names of what is missing. */
  method ValidateRequired(lower: Lower, cookies: seq<Cookie>, reqs: seq<Requirement>, now: int)
    returns (ok: bool, missing: seq<string>, ghost which: seq<nat>)
    ensures (ok, missing) == Validate(lower, cookies, reqs, now)
    ensures ok <==> (exists i | 0 <= i < |reqs| :: reqs[i].required)
                    && forall i | 0 <= i < |reqs| && reqs[i].required :: Fulfilled(lower, cookies, reqs[i], now)
    ensures Lists(missing, which, lower, cookies, reqs, now)
  {
    missing, which := [], [];
    var hasRequired := false;
    for i := 0 to |reqs|
      invariant missing == Missing(lower, cookies, reqs[..i], now)
      invariant hasRequired == AnyRequired(reqs[..i])
      invariant Lists(missing, which, lower, cookies, reqs[..i], now)
    {
      NextRequirement(missing, which, lower, cookies, reqs, i, now);
      AnyRequiredNext(reqs, i);
      if !reqs[i].required {
        continue;
      }
      hasRequired := true;
      if !Has(lower, cookies, reqs[i], now) {
        missing, which := missing + [reqs[i].name], which + [i];
      }
    }
    assert reqs[..|reqs|] == reqs;
    NoneListed(missing, which, lower, cookies, reqs, now);
    ok := hasRequired && |missing| == 0;
  }
}
