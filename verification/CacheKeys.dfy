/** The text of cache keys and of the KEYS patterns that delete them. */
module CacheKeys {
  import opened Rows

  const DIGITS := "0123456789"

  /** Decimal printing of an id, a page or a size. */
  function Dec(n: nat): (s: string)
    ensures s != "" && NoColon(s) && Plain(s)
  {
    var last := [DIGITS[n % 10]];
    if n < 10 then last else Dec(n / 10) + last
  }

  /** How an f-string prints an optional filter. */
  function Txt(filter: Option<string>): string {
    match filter
    case None => "None"
    case Some(s) => s
  }

  function SeatKey(routeId: nat): string { "seats:" + Dec(routeId) + ":all" }

  function SeatPattern(routeId: nat): string { "seats:" + Dec(routeId) + ":*" }

  const ROUTES_PATTERN := "routes:*"

  function Filters(origin: Option<string>, destination: Option<string>): string {
    Txt(origin) + ":" + Txt(destination)
  }

  function RouteKey(origin: Option<string>, destination: Option<string>, page: nat, size: nat): string {
    "routes:" + (Filters(origin, destination) + ":" + Dec(page) + ":" + Dec(size))
  }

  function RateKey(ip: string, path: string): string { "rl:" + (ip + ":" + path) }

  predicate NoColon(s: string) { forall i :: 0 <= i < |s| ==> s[i] != ':' }

  /** No character that a KEYS pattern treats specially. */
  predicate Plain(s: string) { forall i :: 0 <= i < |s| ==> s[i] !in "*?[\\" }

  /** Redis glob matching of `*`, `?` and plain characters; the patterns used here hold no others. */
  predicate Glob(pattern: string, text: string)
    decreases |pattern| + |text|
  {
    if pattern == "" then text == ""
    else if pattern[0] == '*' then Glob(pattern[1..], text) || (text != "" && Glob(pattern, text[1..]))
    else text != "" && (pattern[0] == '?' || pattern[0] == text[0]) && Glob(pattern[1..], text[1..])
  }

  // ---- printing is injective ----

  lemma {:induction false} DecInjective(m: nat, n: nat)
    requires Dec(m) == Dec(n)
    ensures m == n
  {
    var a, b := Dec(m), Dec(n);
    assert a[|a| - 1] == DIGITS[m % 10] && b[|b| - 1] == DIGITS[n % 10];
    assert m % 10 == n % 10;
    if m >= 10 {
      assert |a| > 1 && n >= 10;
      assert a[..|a| - 1] == Dec(m / 10) && b[..|b| - 1] == Dec(n / 10);
      DecInjective(m / 10, n / 10);
    } else {
      assert |a| == 1;
    }
  }

  /** The part before the first colon can be read back, even from a prefix. */
  lemma FirstColon(a: string, b: string, rest: string)
    requires NoColon(a) && NoColon(b) && a + ":" <= b + ":" + rest
    ensures a == b
  {
    var whole := b + ":" + rest;
    assert whole[|a|] == (a + ":")[|a|] == ':';
    assert whole[|b|] == ':';
    assert forall i :: 0 <= i < |a| ==> whole[i] == a[i];
    assert forall i :: 0 <= i < |b| ==> whole[i] == b[i];
    assert |a| == |b|;
    assert a == whole[..|a|] == b;
  }

  /** So can the part after the last one. */
  lemma LastColon(x: string, a: string, y: string, b: string)
    requires NoColon(a) && NoColon(b) && x + ":" + a == y + ":" + b
    ensures x == y && a == b
  {
    var whole := x + ":" + a;
    assert whole == y + ":" + b;
    assert whole[|x|] == ':' && whole[|y|] == ':';
    assert forall i :: |x| < i < |whole| ==> whole[i] == a[i - |x| - 1];
    assert forall i :: |y| < i < |whole| ==> whole[i] == b[i - |y| - 1];
    assert |x| == |y|;
    assert x == whole[..|x|] == y;
    assert a == whole[|x| + 1..] == b;
  }

  lemma SeatKeyInjective(q: nat, r: nat)
    requires SeatKey(q) == SeatKey(r)
    ensures q == r
  {
    var k := SeatKey(q);
    assert k[6..] == Dec(q) + ":all" && k[6..] == Dec(r) + ":all";
    assert Dec(q) + ":" <= Dec(r) + ":" + "all" by { assert k[6..] == Dec(q) + ":" + "all" == Dec(r) + ":" + "all"; }
    FirstColon(Dec(q), Dec(r), "all");
    DecInjective(q, r);
  }

  /** Exactly when two searches share a cache key: same page, same size, same printed filters. */
  lemma RouteKeysCollide(o: Option<string>, d: Option<string>, p: nat, s: nat,
                         o': Option<string>, d': Option<string>, p': nat, s': nat)
    ensures RouteKey(o, d, p, s) == RouteKey(o', d', p', s')
       <==> p == p' && s == s' && Filters(o, d) == Filters(o', d')
  {
    if RouteKey(o, d, p, s) == RouteKey(o', d', p', s') {
      var x, x' := Filters(o, d) + ":" + Dec(p), Filters(o', d') + ":" + Dec(p');
      assert RouteKey(o, d, p, s)[7..] == x + ":" + Dec(s);
      assert RouteKey(o', d', p', s')[7..] == x' + ":" + Dec(s');
      LastColon(x, Dec(s), x', Dec(s'));
      LastColon(Filters(o, d), Dec(p), Filters(o', d'), Dec(p'));
      DecInjective(s, s');
      DecInjective(p, p');
    }
  }

  /** A filter that a key shows unambiguously: no separator in it, and not the text printed for "no filter". */
  predicate Clean(filter: Option<string>) {
    filter.Some? ==> NoColon(filter.value) && filter.value != "None"
  }

  /** Among clean filters the key determines the whole search. */
  lemma CleanKeysDistinct(o: Option<string>, d: Option<string>, p: nat, s: nat,
                          o': Option<string>, d': Option<string>, p': nat, s': nat)
    requires Clean(o) && Clean(d) && Clean(o') && Clean(d')
    requires RouteKey(o, d, p, s) == RouteKey(o', d', p', s')
    ensures o == o' && d == d' && p == p' && s == s'
  {
    RouteKeysCollide(o, d, p, s, o', d', p', s');
    LastColon(Txt(o), Txt(d), Txt(o'), Txt(d'));
  }

  /** Two different searches that share a key, one family for each half of `Clean`. */
  lemma UncleanKeysCollide(a: string, b: string, c: string, d: Option<string>, p: nat, s: nat)
    ensures RouteKey(Some(a + ":" + b), Some(c), p, s) == RouteKey(Some(a), Some(b + ":" + c), p, s)
    ensures RouteKey(Some("None"), d, p, s) == RouteKey(None, d, p, s)
  {
    assert (a + ":" + b) + ":" + c == a + ":" + (b + ":" + c);
  }

  /** An address has no slash, and a request path begins with one. */
  predicate Address(ip: string) { forall i :: 0 <= i < |ip| ==> ip[i] != '/' }

  predicate RequestPath(path: string) { path != "" && path[0] == '/' }

  /** Every client has a limit of its own on every path. An address may hold colons, as IPv6 ones do: the first slash
      tells where it ends. */
  lemma RateKeysCollide(ip: string, path: string, ip': string, path': string)
    requires Address(ip) && Address(ip') && RequestPath(path) && RequestPath(path')
    ensures RateKey(ip, path) == RateKey(ip', path') <==> ip == ip' && path == path'
  {
    var key, key' := RateKey(ip, path), RateKey(ip', path');
    if key == key' {
      assert forall i :: 0 <= i < |ip| ==> key[3 + i] == ip[i];
      assert forall i :: 0 <= i < |ip'| ==> key'[3 + i] == ip'[i];
      assert key[3 + |ip|] == ':' && key'[3 + |ip'|] == ':';
      assert key[3 + |ip| + 1] == '/' && key'[3 + |ip'| + 1] == '/';
      assert |ip| == |ip'|;
      assert ip == key[3..3 + |ip|] == ip';
      assert path == key[3 + |ip| + 1..] == path';
    }
  }

  // ---- what a pattern matches ----

  lemma {:induction false} StarMatchesAll(text: string)
    ensures Glob("*", text)
  {
    if text != "" { StarMatchesAll(text[1..]); }
  }

  lemma {:induction false} GlobIsPrefix(prefix: string, text: string)
    requires Plain(prefix)
    ensures Glob(prefix + "*", text) <==> prefix <= text
  {
    var p := prefix + "*";
    if prefix == "" {
      assert p == "*";
      StarMatchesAll(text);
    } else {
      assert p[0] == prefix[0] && prefix[0] !in "*?[\\" && p[1..] == prefix[1..] + "*";
      if text != "" {
        GlobIsPrefix(prefix[1..], text[1..]);
        if prefix[0] == text[0] {
          assert prefix == [prefix[0]] + prefix[1..] && text == [text[0]] + text[1..];
        }
      }
    }
  }

  lemma SeatPatternHits(r: nat, q: nat)
    ensures Glob(SeatPattern(r), SeatKey(q)) <==> q == r
  {
    var mine, theirs := Dec(r) + ":", Dec(q) + ":" + "all";
    assert SeatPattern(r) == ("seats:" + mine) + "*" && SeatKey(q) == "seats:" + theirs;
    GlobIsPrefix("seats:" + mine, SeatKey(q));
    if "seats:" + mine <= SeatKey(q) {
      assert ("seats:" + mine)[6..] == mine && SeatKey(q)[6..] == theirs;
      FirstColon(Dec(r), Dec(q), "all");
      DecInjective(r, q);
    }
    if q == r { assert SeatKey(q) == ("seats:" + mine) + "all"; }
  }

  lemma SeatPatternMisses(r: nat, key: string)
    requires key != "" && key[0] == 'r'
    ensures !Glob(SeatPattern(r), key)
  {
    var prefix := "seats:" + (Dec(r) + ":");
    assert SeatPattern(r) == prefix + "*";
    GlobIsPrefix(prefix, key);
    assert prefix[0] == 's';
  }

  /** Invalidating route `r` hits the cached seat list of `r` and no other key the application writes. */
  lemma SeatPatternIsPrecise(r: nat, q: nat, o: Option<string>, d: Option<string>, page: nat, size: nat,
                             ip: string, path: string)
    ensures Glob(SeatPattern(r), SeatKey(q)) <==> q == r
    ensures !Glob(SeatPattern(r), RouteKey(o, d, page, size))
    ensures !Glob(SeatPattern(r), RateKey(ip, path))
  {
    SeatPatternHits(r, q);
    SeatPatternMisses(r, RouteKey(o, d, page, size));
    SeatPatternMisses(r, RateKey(ip, path));
  }

  lemma RoutesPatternIsPrecise(q: nat, o: Option<string>, d: Option<string>, page: nat, size: nat,
                               ip: string, path: string)
    ensures Glob(ROUTES_PATTERN, RouteKey(o, d, page, size))
    ensures !Glob(ROUTES_PATTERN, SeatKey(q)) && !Glob(ROUTES_PATTERN, RateKey(ip, path))
  {
    assert ROUTES_PATTERN == "routes:" + "*";
    GlobIsPrefix("routes:", RouteKey(o, d, page, size));
    GlobIsPrefix("routes:", SeatKey(q));
    GlobIsPrefix("routes:", RateKey(ip, path));
    assert "routes:"[1] == 'o' && RateKey(ip, path)[1] == 'l' && SeatKey(q)[0] == 's';
  }
}
