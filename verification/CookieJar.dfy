/**
 * The browser's cookie store as RFC 6265 prescribes it: domain-match (section 5.1.3), path-match
 * (5.1.4), the storage model with its (name, domain, path) identity (5.3) and the send order (5.4).
 * A jar lists its cookies by creation time, oldest first.
 */
module CookieJar {
  import opened Wrappers

  datatype Cookie = Cookie(
    name: string, value: string, domain: string, hostOnly: bool, path: string, secure: bool, httpOnly: bool)

  type Jar = seq<Cookie>

  /** One Set-Cookie header. `expired` stands for an Expires date in the past, which is how a cookie is cleared. */
  datatype SetCookie = SetCookie(
    name: string, value: string, domain: Option<string>, path: string, secure: bool, httpOnly: bool, expired: bool)

  /** Who asks: an HTTP request, or a script reading `document.cookie`. */
  datatype Query = Query(host: string, path: string, https: bool, script: bool)

  // ---------------------------------------------------------------- matching

  predicate EndsWith(s: string, suffix: string) {
    |suffix| <= |s| && s[|s| - |suffix|..] == suffix
  }

  predicate IsIpAddress(host: string) {
    ':' in host || forall i :: 0 <= i < |host| ==> '0' <= host[i] <= '9' || host[i] == '.'
  }

  /** Section 5.1.3. */
  predicate DomainMatch(host: string, domain: string) {
    || host == domain
    || (|domain| < |host| && EndsWith(host, domain) && host[|host| - |domain| - 1] == '.' && !IsIpAddress(host))
  }

  /** Section 5.1.4. */
  predicate PathMatch(request: string, cookie: string) {
    || request == cookie
    || (cookie < request && cookie != "" && (cookie[|cookie| - 1] == '/' || request[|cookie|] == '/'))
  }

  function Lower(s: string): string {
    seq(|s|, i requires 0 <= i < |s| => if 'A' <= s[i] <= 'Z' then s[i] - 'A' + 'a' else s[i])
  }

  /** Sections 5.2.3 and 5.3: a leading dot is dropped, the rest is lower-cased, an empty Domain is no Domain. */
  function Canonical(domain: Option<string>): Option<string> {
    if domain.None? then None
    else
      var d := if |domain.value| > 0 && domain.value[0] == '.' then domain.value[1..] else domain.value;
      if d == "" then None else Some(Lower(d))
  }

  /** The host itself, or a name below the domain: something, a dot, the domain. */
  lemma DomainMatchIff(host: string, domain: string)
    ensures DomainMatch(host, domain) <==>
              host == domain || (!IsIpAddress(host) && exists sub: string :: host == sub + "." + domain)
  {
    if |domain| < |host| && EndsWith(host, domain) && host[|host| - |domain| - 1] == '.' {
      assert host == host[..|host| - |domain| - 1] + "." + domain;
    }
    if sub: string :| host == sub + "." + domain {
      assert host[|host| - |domain|..] == domain && host[|sub|] == '.';
    }
  }

  /** The path itself, or anything below it. */
  lemma PathMatchIff(request: string, cookie: string)
    requires cookie != ""
    ensures PathMatch(request, cookie) <==>
              request == cookie || (if cookie[|cookie| - 1] == '/' then cookie <= request else cookie + "/" <= request)
  {
    if cookie + "/" <= request {
      assert (cookie + "/")[|cookie|] == '/' && request[..|cookie|] == cookie;
    }
  }

  /** Nothing is below an IP address: an address of digits and dots, or one with a colon, matches only itself. */
  lemma AddressMatchesItself(host: string, domain: string)
    requires (exists i :: 0 <= i < |host| && host[i] == ':') || forall i :: 0 <= i < |host| ==> host[i] in "0123456789."
    ensures DomainMatch(host, domain) <==> host == domain
  {
    assert "0123456789."[10] == '.';
    forall i | 0 <= i < |host| && host[i] in "0123456789." ensures '0' <= host[i] <= '9' || host[i] == '.' {
    }
  }

  /** Capitals, and only capitals, are folded, by code point. */
  lemma CanonicalFoldsCase(d: string, i: nat)
    requires d != "" && d[0] != '.' && i < |d|
    ensures Canonical(Some(d)).Some? && |Canonical(Some(d)).value| == |d|
    ensures Canonical(Some(d)).value[i] as int == if 65 <= d[i] as int <= 90 then d[i] as int + 32 else d[i] as int
  {
  }

  /** A configured name without capitals or a leading dot is the Domain; one leading dot makes no difference. */
  lemma CanonicalIs(d: string)
    requires d != "" && d[0] != '.' && forall i :: 0 <= i < |d| ==> !('A' <= d[i] <= 'Z')
    ensures Canonical(Some(d)) == Some(d) && Canonical(Some("." + d)) == Some(d)
  {
    assert Lower(d) == d;
    assert ("." + d)[1..] == d;
  }

  // ---------------------------------------------------------------- storage

  predicate SameIdentity(a: Cookie, b: Cookie) {
    a.name == b.name && a.domain == b.domain && a.path == b.path
  }

  ghost predicate Distinct(jar: Jar) {
    forall i, j :: 0 <= i < j < |jar| ==> !SameIdentity(jar[i], jar[j])
  }

  function Drop(jar: Jar, c: Cookie): Jar {
    if jar == [] then []
    else if SameIdentity(jar[0], c) then Drop(jar[1..], c)
    else [jar[0]] + Drop(jar[1..], c)
  }

  /** A new identity goes last; a known one is overwritten and keeps its creation time, hence its place. */
  function Put(jar: Jar, c: Cookie): Jar {
    if jar == [] then [c]
    else if SameIdentity(jar[0], c) then [c] + jar[1..]
    else [jar[0]] + Put(jar[1..], c)
  }

  /** The cookie a header describes, if the sending host may set it. */
  function Described(host: string, h: SetCookie): Option<Cookie> {
    var domain := Canonical(h.domain);
    if domain.None? then Some(Cookie(h.name, h.value, host, true, h.path, h.secure, h.httpOnly))
    else if DomainMatch(host, domain.value) then
      Some(Cookie(h.name, h.value, domain.value, false, h.path, h.secure, h.httpOnly))
    else None
  }

  /** Section 5.3 for one header. */
  function Receive(jar: Jar, host: string, h: SetCookie): Jar {
    var c := Described(host, h);
    if c.None? then jar else if h.expired then Drop(jar, c.value) else Put(jar, c.value)
  }

  function ReceiveAll(jar: Jar, host: string, headers: seq<SetCookie>): Jar
    decreases |headers|
  {
    if headers == [] then jar else ReceiveAll(Receive(jar, host, headers[0]), host, headers[1..])
  }

  // ---------------------------------------------------------------- retrieval

  predicate Sendable(c: Cookie, q: Query) {
    && (if c.hostOnly then q.host == c.domain else DomainMatch(q.host, c.domain))
    && PathMatch(q.path, c.path)
    && (c.secure ==> q.https)
    && (c.httpOnly ==> !q.script)
  }

  function Matching(jar: Jar, q: Query): Jar {
    if jar == [] then []
    else if Sendable(jar[0], q) then [jar[0]] + Matching(jar[1..], q)
    else Matching(jar[1..], q)
  }

  function InsertByPath(c: Cookie, s: Jar): Jar {
    if s == [] || |c.path| >= |s[0].path| then [c] + s else [s[0]] + InsertByPath(c, s[1..])
  }

  /** Longer paths first, equal lengths by creation time. */
  function SendOrder(s: Jar): Jar {
    if s == [] then [] else InsertByPath(s[0], SendOrder(s[1..]))
  }

  /** First value of a name: cookie-parser assigns each name once, and the SPA takes the first match. */
  function FirstNamed(s: Jar, name: string): Option<string> {
    if s == [] then None else if s[0].name == name then Some(s[0].value) else FirstNamed(s[1..], name)
  }

  function Reads(jar: Jar, q: Query, name: string): Option<string> {
    FirstNamed(SendOrder(Matching(jar, q)), name)
  }

  // ---------------------------------------------------------------- laws of the store

  /** The cookies whose name is (keep) or is not (!keep) one of `names`, in order. */
  function Restrict(jar: Jar, names: set<string>, keep: bool): Jar {
    if jar == [] then []
    else if (jar[0].name in names) == keep then [jar[0]] + Restrict(jar[1..], names, keep)
    else Restrict(jar[1..], names, keep)
  }

  lemma {:induction false} RestrictDrop(jar: Jar, names: set<string>, keep: bool, c: Cookie)
    ensures Restrict(Drop(jar, c), names, keep) == Drop(Restrict(jar, names, keep), c)
  {
    if jar != [] {
      RestrictDrop(jar[1..], names, keep, c);
    }
  }

  lemma {:induction false} RestrictPut(jar: Jar, names: set<string>, keep: bool, c: Cookie)
    ensures Restrict(Put(jar, c), names, keep)
         == if (c.name in names) == keep then Put(Restrict(jar, names, keep), c) else Restrict(jar, names, keep)
  {
    if jar != [] && !SameIdentity(jar[0], c) {
      RestrictPut(jar[1..], names, keep, c);
    }
  }

  lemma {:induction false} DropOfOtherNames(jar: Jar, names: set<string>, keep: bool, c: Cookie)
    requires (c.name in names) != keep
    ensures Drop(Restrict(jar, names, keep), c) == Restrict(jar, names, keep)
  {
    if jar != [] {
      DropOfOtherNames(jar[1..], names, keep, c);
    }
  }

  lemma {:induction false} RestrictMembers(jar: Jar, names: set<string>, keep: bool)
    ensures forall c :: c in Restrict(jar, names, keep) <==> c in jar && (c.name in names) == keep
    ensures Distinct(jar) ==> Distinct(Restrict(jar, names, keep))
  {
    if jar != [] {
      RestrictMembers(jar[1..], names, keep);
      assert jar == [jar[0]] + jar[1..];
    }
  }

  lemma DistinctCons(c: Cookie, s: Jar)
    requires Distinct(s) && forall d :: d in s ==> !SameIdentity(c, d)
    ensures Distinct([c] + s)
  {
  }

  lemma {:induction false} DropMembers(jar: Jar, c: Cookie)
    ensures forall d :: d in Drop(jar, c) <==> d in jar && !SameIdentity(d, c)
    ensures Distinct(jar) ==> Distinct(Drop(jar, c))
  {
    if jar != [] {
      DropMembers(jar[1..], c);
      assert jar == [jar[0]] + jar[1..];
      if Distinct(jar) {
        DistinctCons(jar[0], Drop(jar[1..], c));
      }
    }
  }

  lemma {:induction false} PutMembers(jar: Jar, c: Cookie)
    requires Distinct(jar)
    ensures forall d :: d in Put(jar, c) <==> d == c || (d in jar && !SameIdentity(d, c))
    ensures Distinct(Put(jar, c))
  {
    if jar != [] {
      assert jar == [jar[0]] + jar[1..];
      if SameIdentity(jar[0], c) {
        forall i | 0 < i < |jar| ensures !SameIdentity(jar[i], c) {
          assert !SameIdentity(jar[0], jar[i]);
        }
      } else {
        PutMembers(jar[1..], c);
        DistinctCons(jar[0], Put(jar[1..], c));
      }
    }
  }

  /** Overwriting keeps a cookie's place, so its creation time; a new one goes last. */
  lemma {:induction false} PutKeepsPlace(jar: Jar, c: Cookie)
    requires Distinct(jar)
    ensures |Put(jar, c)| >= |jar|
    ensures forall i :: 0 <= i < |jar| ==> Put(jar, c)[i] == if SameIdentity(jar[i], c) then c else jar[i]
    ensures Put(jar, c)[|jar|..] == if exists i :: 0 <= i < |jar| && SameIdentity(jar[i], c) then [] else [c]
  {
    if jar != [] {
      if SameIdentity(jar[0], c) {
        forall i | 0 < i < |jar| ensures !SameIdentity(jar[i], c) {
          assert !SameIdentity(jar[0], jar[i]);
        }
      } else {
        PutKeepsPlace(jar[1..], c);
      }
    }
  }

  /** Sorting and filtering neither lose nor invent cookies. */
  lemma {:induction false} SendOrderMembers(s: Jar)
    ensures forall c :: c in SendOrder(s) <==> c in s
  {
    if s != [] {
      SendOrderMembers(s[1..]);
      InsertMembers(s[0], SendOrder(s[1..]));
      assert s == [s[0]] + s[1..];
    }
  }

  lemma {:induction false} InsertMembers(c: Cookie, s: Jar)
    ensures forall d :: d in InsertByPath(c, s) <==> d == c || d in s
  {
    if s != [] && |c.path| < |s[0].path| {
      InsertMembers(c, s[1..]);
      assert s == [s[0]] + s[1..];
    }
  }

  ghost predicate LongestFirst(s: Jar) {
    forall i, j :: 0 <= i < j < |s| ==> |s[i].path| >= |s[j].path|
  }

  function OfLength(s: Jar, n: nat): Jar {
    if s == [] then [] else if |s[0].path| == n then [s[0]] + OfLength(s[1..], n) else OfLength(s[1..], n)
  }

  lemma {:induction false} InsertOrders(c: Cookie, s: Jar, n: nat)
    requires LongestFirst(s)
    ensures LongestFirst(InsertByPath(c, s))
    ensures OfLength(InsertByPath(c, s), n) == if |c.path| == n then [c] + OfLength(s, n) else OfLength(s, n)
  {
    if s == [] || |c.path| >= |s[0].path| {
      assert ([c] + s)[1..] == s;
    } else {
      InsertOrders(c, s[1..], n);
      InsertMembers(c, s[1..]);
      var rest := InsertByPath(c, s[1..]);
      assert ([s[0]] + rest)[1..] == rest;
      forall j | 0 <= j < |rest| ensures |s[0].path| >= |rest[j].path| {
        assert rest[j] in rest;
      }
      if |c.path| == n {
        NoneOfLength(s, n);
      }
    }
  }

  lemma {:induction false} NoneOfLength(s: Jar, n: nat)
    requires LongestFirst(s)
    ensures s != [] && |s[0].path| > n ==> OfLength(s, n) == OfLength(s[1..], n)
  {
  }

  /** Section 5.4: longer paths first; cookies with equally long paths stay in order of creation. */
  lemma {:induction false} SendOrderIsByPath(s: Jar, n: nat)
    ensures LongestFirst(SendOrder(s)) && OfLength(SendOrder(s), n) == OfLength(s, n)
  {
    if s != [] {
      SendOrderIsByPath(s[1..], n);
      InsertOrders(s[0], SendOrder(s[1..]), n);
    }
  }

  lemma {:induction false} MatchingMembers(jar: Jar, q: Query)
    ensures forall c :: c in Matching(jar, q) <==> c in jar && Sendable(c, q)
  {
    if jar != [] {
      MatchingMembers(jar[1..], q);
      assert jar == [jar[0]] + jar[1..];
    }
  }

  lemma {:induction false} FirstNamedMember(s: Jar, name: string)
    ensures FirstNamed(s, name).None? <==> forall c :: c in s ==> c.name != name
    ensures FirstNamed(s, name).Some? ==> exists c :: c in s && c.name == name && c.value == FirstNamed(s, name).value
  {
    if s != [] {
      FirstNamedMember(s[1..], name);
      assert s == [s[0]] + s[1..];
    }
  }

  /** A cookie that is alone in its name is what every permitted reader of that name gets. */
  lemma OnlyCookieIsRead(jar: Jar, q: Query, c: Cookie)
    requires Restrict(jar, {c.name}, true) == [c]
    ensures Reads(jar, q, c.name) == if Sendable(c, q) then Some(c.value) else None
  {
    RestrictMembers(jar, {c.name}, true);
    MatchingMembers(jar, q);
    SendOrderMembers(Matching(jar, q));
    FirstNamedMember(SendOrder(Matching(jar, q)), c.name);
    assert forall d :: d in Restrict(jar, {c.name}, true) ==> d == c;
    assert c in Restrict(jar, {c.name}, true);
  }

  lemma OneSent(c: Cookie, q: Query)
    ensures Matching([c], q) == if Sendable(c, q) then [c] else []
    ensures SendOrder([c]) == [c]
  {
    assert [c][1..] == [];
    assert SendOrder([c]) == InsertByPath(c, SendOrder([]));
  }

  /** What a jar of two cookies with equally long paths sends. */
  lemma PairSent(a: Cookie, b: Cookie, q: Query)
    requires |a.path| == |b.path|
    ensures SendOrder(Matching([a] + [b], q))
         == if Sendable(a, q) then (if Sendable(b, q) then [a] + [b] else [a]) else if Sendable(b, q) then [b] else []
  {
    assert ([a] + [b])[1..] == [b];
    OneSent(a, q);
    OneSent(b, q);
    assert SendOrder([a] + [b]) == InsertByPath(a, [b]);
  }

  lemma ReceiveKeepsDistinct(jar: Jar, host: string, h: SetCookie)
    requires Distinct(jar)
    ensures Distinct(Receive(jar, host, h))
  {
    var c := Described(host, h);
    if c.Some? {
      DropMembers(jar, c.value);
      PutMembers(jar, c.value);
    }
  }

  /** A header cannot touch cookies of another name. */
  lemma ReceiveFrame(jar: Jar, host: string, h: SetCookie, names: set<string>, keep: bool)
    requires (h.name in names) != keep
    ensures Restrict(Receive(jar, host, h), names, keep) == Restrict(jar, names, keep)
  {
    var c := Described(host, h);
    if c.Some? {
      RestrictDrop(jar, names, keep, c.value);
      DropOfOtherNames(jar, names, keep, c.value);
      RestrictPut(jar, names, keep, c.value);
    }
  }

  lemma {:induction false} ReceiveAllFrame(jar: Jar, host: string, hs: seq<SetCookie>, names: set<string>, keep: bool)
    requires forall h :: h in hs ==> (h.name in names) != keep
    ensures Restrict(ReceiveAll(jar, host, hs), names, keep) == Restrict(jar, names, keep)
    decreases |hs|
  {
    if hs != [] {
      ReceiveFrame(jar, host, hs[0], names, keep);
      ReceiveAllFrame(Receive(jar, host, hs[0]), host, hs[1..], names, keep);
    }
  }

  /** On the cookies of a name set, a header acts as it acts on the jar. */
  lemma ReceiveLocal(jar: Jar, host: string, h: SetCookie, names: set<string>)
    requires h.name in names
    ensures Restrict(Receive(jar, host, h), names, true) == Receive(Restrict(jar, names, true), host, h)
  {
    var c := Described(host, h);
    if c.Some? {
      RestrictDrop(jar, names, true, c.value);
      RestrictPut(jar, names, true, c.value);
    }
  }

  lemma {:induction false} ReceiveAllLocal(jar: Jar, host: string, hs: seq<SetCookie>, names: set<string>)
    requires forall h :: h in hs ==> h.name in names
    ensures Restrict(ReceiveAll(jar, host, hs), names, true) == ReceiveAll(Restrict(jar, names, true), host, hs)
    decreases |hs|
  {
    if hs != [] {
      ReceiveLocal(jar, host, hs[0], names);
      ReceiveAllLocal(Receive(jar, host, hs[0]), host, hs[1..], names);
    }
  }

  lemma {:induction false} ReceiveAllAppend(jar: Jar, host: string, a: seq<SetCookie>, b: seq<SetCookie>)
    ensures ReceiveAll(jar, host, a + b) == ReceiveAll(ReceiveAll(jar, host, a), host, b)
    decreases |a|
  {
    if a == [] {
      assert a + b == b;
    } else {
      var both := a + b;
      assert both[0] == a[0] && both[1..] == a[1..] + b;
      ReceiveAllAppend(Receive(jar, host, a[0]), host, a[1..], b);
      assert ReceiveAll(jar, host, both) == ReceiveAll(Receive(jar, host, a[0]), host, a[1..] + b);
    }
  }
}
