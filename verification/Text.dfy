/** Strings as the controller uses them: Go's string order and `sort.Strings`, joining and
    splitting on commas, and the client and peer URLs built from a machine address. */
module Text {

  // ----- The order of Go strings -----

  predicate LexLe(a: string, b: string) {
    if a == "" then true
    else if b == "" then false
    else a[0] < b[0] || (a[0] == b[0] && LexLe(a[1..], b[1..]))
  }

  lemma {:induction false} LexTotal(a: string, b: string)
    ensures LexLe(a, b) || LexLe(b, a)
  {
    if a != "" && b != "" && a[0] == b[0] {
      LexTotal(a[1..], b[1..]);
    }
  }

  lemma {:induction false} LexAntisymmetric(a: string, b: string)
    requires LexLe(a, b) && LexLe(b, a)
    ensures a == b
  {
    if a != "" && b != "" {
      LexAntisymmetric(a[1..], b[1..]);
      assert a == [a[0]] + a[1..] && b == [b[0]] + b[1..];
    }
  }

  lemma {:induction false} LexTransitive(a: string, b: string, c: string)
    requires LexLe(a, b) && LexLe(b, c)
    ensures LexLe(a, c)
  {
    if a != "" && b != "" && c != "" && a[0] == b[0] == c[0] {
      LexTransitive(a[1..], b[1..], c[1..]);
    }
  }

  /** The order is that of Go's `<=` on strings: `a` is a prefix of `b`, or has the smaller character
      where the two first differ. */
  lemma {:induction false} LexMeans(a: string, b: string)
    ensures
      LexLe(a, b)
      <==> a <= b || exists i :: 0 <= i < |a| && i < |b| && a[..i] == b[..i] && a[i] < b[i]
  {
    if a != "" && b != "" {
      if a[0] == b[0] {
        LexMeans(a[1..], b[1..]);
        TailsDiffer(a, b);
      } else if a[0] < b[0] {
        assert a[..0] == b[..0];
      } else {
        assert forall i :: 0 < i <= |a| && i <= |b| ==> a[..i][0] != b[..i][0];
      }
    }
  }

  lemma TailsDiffer(a: string, b: string)
    requires a != "" && b != "" && a[0] == b[0]
    ensures a <= b <==> a[1..] <= b[1..]
    ensures (exists i :: 0 <= i < |a| && i < |b| && a[..i] == b[..i] && a[i] < b[i])
       <==> exists i :: 0 <= i < |a[1..]| && i < |b[1..]| && a[1..][..i] == b[1..][..i] && a[1..][i] < b[1..][i]
  {
    var c, d := a[1..], b[1..];
    assert a == [a[0]] + c && b == [a[0]] + d;
    if i :| 0 <= i < |a| && i < |b| && a[..i] == b[..i] && a[i] < b[i] {
      assert c[..i - 1] == a[..i][1..] && d[..i - 1] == b[..i][1..];
      assert c[i - 1] < d[i - 1];
    }
    if i :| 0 <= i < |c| && i < |d| && c[..i] == d[..i] && c[i] < d[i] {
      assert a[..i + 1] == [a[0]] + c[..i] && b[..i + 1] == [a[0]] + d[..i];
      assert a[i + 1] < b[i + 1];
    }
  }

  // ----- sort.Strings -----

  ghost predicate Sorted(s: seq<string>) {
    forall i, j :: 0 <= i < j < |s| ==> LexLe(s[i], s[j])
  }

  function Insert(x: string, s: seq<string>): (r: seq<string>)
    requires Sorted(s)
    ensures Sorted(r) && multiset(r) == multiset(s) + multiset{x}
  {
    if s == [] then [x]
    else if LexLe(x, s[0]) then
      assert forall j :: 0 <= j < |s| ==> LexLe(x, s[j]) by {
        forall j | 0 < j < |s| ensures LexLe(x, s[j]) { LexTransitive(x, s[0], s[j]); }
      }
      [x] + s
    else
      var rest := Insert(x, s[1..]);
      assert s == [s[0]] + s[1..];
      assert forall j :: 0 <= j < |rest| ==> LexLe(s[0], rest[j]) by {
        forall j | 0 <= j < |rest| ensures LexLe(s[0], rest[j]) {
          assert rest[j] in multiset(rest);
          LexTotal(x, s[0]);
          assert rest[j] == x || rest[j] in s[1..];
        }
      }
      [s[0]] + rest
  }

  /** `sort.Strings`, by its contract: the same strings in ascending order. */
  function Sort(s: seq<string>): (r: seq<string>)
    ensures Sorted(r) && multiset(r) == multiset(s) && |r| == |s|
  {
    if s == [] then []
    else
      assert s == [s[0]] + s[1..];
      var r := Insert(s[0], Sort(s[1..]));
      assert |multiset(r)| == |multiset(s)|;
      r
  }

  /** A multiset of strings has one ascending listing. */
  lemma {:induction false} SortedUnique(a: seq<string>, b: seq<string>)
    requires Sorted(a) && Sorted(b) && multiset(a) == multiset(b)
    ensures a == b
  {
    assert |multiset(a)| == |a| && |multiset(b)| == |b|;
    if a != [] {
      SameLeast(a, b);
      SameTail(a, b);
      SortedUnique(a[1..], b[1..]);
      assert a == [a[0]] + a[1..] && b == [b[0]] + b[1..];
    }
  }

  lemma SameLeast(a: seq<string>, b: seq<string>)
    requires Sorted(a) && Sorted(b) && multiset(a) == multiset(b) && a != [] && b != []
    ensures a[0] == b[0]
  {
    assert a[0] in multiset(b) && b[0] in multiset(a);
    var i :| 0 <= i < |b| && b[i] == a[0];
    var j :| 0 <= j < |a| && a[j] == b[0];
    LexTotal(a[0], a[0]);
    LexAntisymmetric(a[0], b[0]);
  }

  lemma SameTail(a: seq<string>, b: seq<string>)
    requires multiset(a) == multiset(b) && a != [] && b != [] && a[0] == b[0]
    ensures multiset(a[1..]) == multiset(b[1..])
  {
    assert a == [a[0]] + a[1..] && b == [b[0]] + b[1..];
    assert multiset(a) == multiset{a[0]} + multiset(a[1..]);
    assert multiset(b) == multiset{b[0]} + multiset(b[1..]);
    assert multiset(a[1..]) == multiset(a) - multiset{a[0]};
    assert multiset(b[1..]) == multiset(b) - multiset{b[0]};
  }

  // ----- strings.Join and strings.Split on a comma -----

  function Join(parts: seq<string>): string {
    if parts == [] then ""
    else if |parts| == 1 then parts[0]
    else parts[0] + "," + Join(parts[1..])
  }

  /** The index of the first `c` in `s`, or the length of `s`. */
  function IndexOf(s: string, c: char): (i: nat)
    ensures i <= |s| && (i < |s| ==> s[i] == c) && forall k :: 0 <= k < i ==> s[k] != c
  {
    if s == "" || s[0] == c then 0 else 1 + IndexOf(s[1..], c)
  }

  function Split(s: string): seq<string> {
    var i := IndexOf(s, ',');
    if i == |s| then [s] else [s[..i]] + Split(s[i + 1..])
  }

  /** Joining and then splitting loses nothing, except that Go splits "" into one empty part. */
  lemma {:induction false} SplitJoin(parts: seq<string>)
    requires forall p :: p in parts ==> ',' !in p
    ensures Split(Join(parts)) == if parts == [] then [""] else parts
  {
    if |parts| == 1 {
      assert parts[0] in parts;
      assert IndexOf(parts[0], ',') == |parts[0]|;
      assert parts == [parts[0]];
    } else if |parts| > 1 {
      assert parts[0] in parts;
      var s := Join(parts);
      var i := IndexOf(s, ',');
      assert s[|parts[0]|] == ',';
      assert forall k :: 0 <= k < |parts[0]| ==> s[k] == parts[0][k];
      assert i == |parts[0]|;
      assert s[..i] == parts[0] && s[i + 1..] == Join(parts[1..]);
      SplitJoin(parts[1..]);
    }
  }

  // ----- URLs of a member -----

  const HTTPS_PREFIX := "https://"

  function MemberClientURL(address: string): string {
    HTTPS_PREFIX + address + ":2379"
  }

  function PeerURL(address: string): string {
    HTTPS_PREFIX + address + ":2380"
  }

  lemma URLsInjective(a: string, b: string)
    ensures MemberClientURL(a) == MemberClientURL(b) ==> a == b
    ensures PeerURL(a) == PeerURL(b) ==> a == b
  {
    assert a == MemberClientURL(a)[8..8 + |a|] && b == MemberClientURL(b)[8..8 + |b|];
    assert |MemberClientURL(a)| == 13 + |a| && |MemberClientURL(b)| == 13 + |b|;
    assert a == PeerURL(a)[8..8 + |a|] && b == PeerURL(b)[8..8 + |b|];
    assert |PeerURL(a)| == 13 + |a| && |PeerURL(b)| == 13 + |b|;
  }

  /** The characters that delimit the parts of a URL (section 3.2 of RFC 3986), those Go's
      parser rejects in a host, and those it gives a meaning of their own there. */
  predicate Delimiter(c: char) {
    c < '!' || c == '\U{7F}' || c in "/?@:[]%#\\^`{|}"
  }

  predicate Plain(address: string) {
    forall i :: 0 <= i < |address| ==> !Delimiter(address[i])
  }

  /** The index just after the last `c` in `s`, or 0. */
  function AfterLast(s: string, c: char): (i: nat)
    ensures i <= |s| && (i > 0 ==> s[i - 1] == c) && forall k :: i <= k < |s| ==> s[k] != c
  {
    if s == "" then 0
    else if s[|s| - 1] == c then |s|
    else AfterLast(s[..|s| - 1], c)
  }

  predicate Digits(s: string) {
    forall i :: 0 <= i < |s| ==> '0' <= s[i] <= '9'
  }

  /** The authority: what precedes the query and the path. */
  function AuthorityOf(rest: string): string {
    var beforeQuery := rest[..IndexOf(rest, '?')];
    beforeQuery[..IndexOf(beforeQuery, '/')]
  }

  /** The characters that Go admits in user information, percent escapes apart. */
  predicate UserInfo(s: string) {
    forall i :: 0 <= i < |s| ==>
      'a' <= s[i] <= 'z' || 'A' <= s[i] <= 'Z' || '0' <= s[i] <= '9' || s[i] in "-._:~!$&'()*+,;=@"
  }

  /** The authority without user information, which ends at the last '@', or "" where that has a
      character that it may not have. */
  function HostPortOf(authority: string): string {
    var at := AfterLast(authority, '@');
    if at > 0 && !UserInfo(authority[..at - 1]) then "" else authority[at..]
  }

  /** The host before the last colon, or "" where the colon is missing, the port is no number, or
      the host has a character that is not one of a plain host. */
  function HostOf(hostPort: string): string {
    var port := AfterLast(hostPort, ':');
    if port == 0 || !Digits(hostPort[port..]) then ""
    else if Plain(hostPort[..port - 1]) then hostPort[..port - 1]
    else ""
  }

  /** The host of an https URL as `url.ParseRequestURI` and `net.SplitHostPort` find it, and ""
      where either reports an error. */
  function MachineAddressFromClientURL(url: string): string {
    if |url| < 8 || url[..8] != HTTPS_PREFIX then ""
    else HostOf(HostPortOf(AuthorityOf(url[8..])))
  }

  lemma HostOfPlain(address: string)
    requires Plain(address)
    ensures MachineAddressFromClientURL(MemberClientURL(address)) == address
  {
    var url := MemberClientURL(address);
    assert url[..8] == HTTPS_PREFIX && url[8..] == address + ":2379";
    PlainAuthority(address);
    PlainHost(address);
  }

  lemma PlainHost(address: string)
    requires Plain(address)
    ensures HostOf(address + ":2379") == address
  {
    var rest := address + ":2379";
    AfterLastIs(rest, ':', |address|);
    assert rest[..|address|] == address && rest[|address| + 1..] == "2379";
  }

  lemma WholeAuthority(authority: string)
    requires forall k :: 0 <= k < |authority| ==> authority[k] !in "/?"
    ensures AuthorityOf(authority) == authority
  {
    assert IndexOf(authority, '?') == |authority| && authority[..|authority|] == authority;
    assert IndexOf(authority, '/') == |authority|;
  }

  lemma PlainAuthority(address: string)
    requires Plain(address)
    ensures HostPortOf(AuthorityOf(address + ":2379")) == address + ":2379"
  {
    var rest := address + ":2379";
    forall k | 0 <= k < |rest| ensures rest[k] !in "/?@" {
      if k < |address| {
        assert !Delimiter(address[k]);
      }
    }
    WholeAuthority(rest);
    assert AfterLast(rest, '@') == 0 && rest[0..] == rest;
  }

  lemma UserDropped(user: string, rest: string)
    requires UserInfo(user) && forall k :: 0 <= k < |rest| ==> rest[k] != '@'
    ensures HostPortOf(user + "@" + rest) == rest
  {
    var authority := user + "@" + rest;
    assert forall k :: |user| < k < |authority| ==> authority[k] == rest[k - |user| - 1];
    AfterLastIs(authority, '@', |user|);
    assert authority[..|user|] == user && authority[|user| + 1..] == rest;
  }

  /** What is recovered from an address with user information is the host behind it: another
      machine's address, if one has it. */
  lemma HostBehindUser(user: string, host: string)
    requires Plain(host) && UserInfo(user)
    ensures MachineAddressFromClientURL(MemberClientURL(user + "@" + host)) == host
  {
    var rest := host + ":2379";
    var authority := user + "@" + rest;
    var url := MemberClientURL(user + "@" + host);
    assert url[..8] == HTTPS_PREFIX && url[8..] == authority;
    forall k | 0 <= k < |rest| ensures rest[k] !in "/?@" {
      if k < |host| {
        assert !Delimiter(host[k]);
      }
    }
    assert forall k :: |user| < k < |authority| ==> authority[k] == rest[k - |user| - 1];
    WholeAuthority(authority);
    UserDropped(user, rest);
    PlainHost(host);
  }

  lemma AfterLastIs(s: string, c: char, k: nat)
    requires k < |s| && s[k] == c && forall j :: k < j < |s| ==> s[j] != c
    ensures AfterLast(s, c) == k + 1
  {
    var i := AfterLast(s, c);
    assert i > 0 ==> s[i - 1] == c;
  }

  /** Going to a client URL and back gives the address again exactly when the address is free
      of delimiters. */
  lemma AddressRoundTrip(address: string)
    ensures MachineAddressFromClientURL(MemberClientURL(address)) == address <==> Plain(address)
  {
    if Plain(address) {
      HostOfPlain(address);
    }
  }
}
