/** The printed keys of the usage counters in Redis: `usage:{tenant}:{date}:{model}`. */
module UsageKeys {
  import opened Text

  /** The list that carries events to the collector. */
  const FLUSH_QUEUE := "usage:flush:queue"

  datatype KeyParts = KeyParts(tenant: string, date: string, model: string)

  function RedisKey(tenant: string, date: string, model: string): string {
    "usage:" + (tenant + ":" + (date + ":" + model))
  }

  /** The prefix a reader scans for one tenant. */
  function TenantPrefix(tenant: string): string {
    "usage:" + tenant + ":"
  }

  /** At most n parts of s; unlike strings.SplitN, an empty remainder is dropped. */
  function SplitN(s: string, sep: string, n: nat): (parts: seq<string>)
    requires n >= 1 && sep != ""
    decreases n
  {
    if n == 1 then (if s != "" then [s] else [])
    else
      var i := IndexOf(s, sep);
      if i < 0 then [s] else [s[..i]] + SplitN(s[i + |sep|..], sep, n - 1)
  }

  function ParseUsageKey(key: string): Option<KeyParts> {
    if |key| < 7 || key[..6] != "usage:" then None
    else
      var parts := SplitN(key[6..], ":", 3);
      if |parts| != 3 then None else Some(KeyParts(parts[0], parts[1], parts[2]))
  }

  /** The collector's own search loop finds the first occurrence. */
  method FindIndex(s: string, substr: string) returns (r: int)
    ensures r == IndexOf(s, substr)
  {
    var i := 0;
    while i <= |s| - |substr|
      invariant 0 <= i
      invariant forall k :: 0 <= k < i ==> !At(s, substr, k)
    {
      if s[i..i + |substr|] == substr {
        assert At(s, substr, i);
        return i;
      }
      i := i + 1;
    }
    return -1;
  }

  lemma {:induction false} SplitNStep(done: seq<string>, s: string, sep: string, n: nat, i: nat)
    requires n >= 2 && sep != "" && i == IndexOf(s, sep)
    ensures done + SplitN(s, sep, n) == (done + [s[..i]]) + SplitN(s[i + |sep|..], sep, n - 1)
  {
  }

  lemma {:induction false} SplitNEnd(s: string, sep: string, n: nat)
    requires n >= 1 && sep != "" && (n >= 2 ==> IndexOf(s, sep) < 0)
    ensures SplitN(s, sep, n) == if n == 1 && s == "" then [] else [s]
  {
  }

  /** The collector's own split loop. */
  method SplitParts(s: string, sep: string, n: nat) returns (parts: seq<string>)
    requires n >= 1 && sep != ""
    ensures parts == SplitN(s, sep, n)
  {
    hide SplitN, IndexOf;
    parts := [];
    var rest, i := s, 0;
    while i < n - 1
      invariant 0 <= i <= n - 1
      invariant parts + SplitN(rest, sep, n - i) == SplitN(s, sep, n)
    {
      var idx := FindIndex(rest, sep);
      if idx < 0 {
        SplitNEnd(rest, sep, n - i);
        return parts + [rest];
      }
      SplitNStep(parts, rest, sep, n - i, idx);
      parts, rest, i := parts + [rest[..idx]], rest[idx + |sep|..], i + 1;
    }
    SplitNEnd(rest, sep, 1);
    if rest != "" {
      parts := parts + [rest];
    }
  }

  lemma {:induction false} SplitNAtColon(a: string, rest: string, n: nat)
    requires ':' !in a && n >= 2
    ensures SplitN(a + ":" + rest, ":", n) == [a] + SplitN(rest, ":", n - 1)
  {
    var s := a + ":" + rest;
    IndexAfter(a, ':', rest);
    assert s[..|a|] == a && s[|a| + 1..] == rest;
  }

  lemma {:induction false} SplitNLast(s: string)
    ensures SplitN(s, ":", 1) == if s != "" then [s] else []
  {
  }

  lemma {:induction false} FirstPieceIsPlain(s: string)
    ensures var i := IndexOf(s, ":"); i >= 0 ==> i < |s| && ':' !in s[..i]
    ensures IndexOf(s, ":") < 0 ==> ':' !in s
  {
    IndexOfNone(s, ':');
    var i := IndexOf(s, ":");
    if i >= 0 {
      assert At(s, ":", i);
      assert forall k :: 0 <= k < i && s[k] == ':' ==> At(s, ":", k);
    }
  }

  /** Every piece but the last is colon-free, whatever was split. */
  lemma {:induction false} SplitNPieces(s: string, n: nat)
    requires n >= 1
    ensures forall i :: 0 <= i < |SplitN(s, ":", n)| && i < n - 1 ==> ':' !in SplitN(s, ":", n)[i]
  {
    hide IndexOf;
    FirstPieceIsPlain(s);
    var i := IndexOf(s, ":");
    if n > 1 && i >= 0 {
      SplitNPieces(s[i + 1..], n - 1);
    }
  }

  /**
   * A printed key parses back to what it was printed from exactly when the tenant and the
   * date hold no colon and the model is not empty; the model may hold colons.
   */
  lemma {:induction false} KeyRoundTrip(tenant: string, date: string, model: string)
    ensures ParseUsageKey(RedisKey(tenant, date, model)) == Some(KeyParts(tenant, date, model))
       <==> ':' !in tenant && ':' !in date && model != ""
  {
    hide SplitN;
    var key := RedisKey(tenant, date, model);
    var rest := tenant + ":" + (date + ":" + model);
    assert key[..6] == "usage:" && key[6..] == rest;
    SplitNPieces(rest, 3);
    if ':' !in tenant {
      SplitNAtColon(tenant, date + ":" + model, 3);
      if ':' !in date {
        SplitNAtColon(date, model, 2);
        SplitNLast(model);
      }
    }
  }

  lemma {:induction false} SplitAt(s: string, n: nat)
    requires n >= 2
    ensures var i := IndexOf(s, ":");
            if i < 0 then SplitN(s, ":", n) == [s]
            else s == s[..i] + ":" + s[i + 1..] && SplitN(s, ":", n) == [s[..i]] + SplitN(s[i + 1..], ":", n - 1)
  {
    var i := IndexOf(s, ":");
    if i >= 0 {
      assert s[i] == s[i..i + 1][0] == ':';
    }
  }

  /** A key that parses is the key printed from its parts, so distinct keys have distinct parts. */
  lemma {:induction false} ParsedKeyPrints(key: string)
    requires ParseUsageKey(key).Some?
    ensures var p := ParseUsageKey(key).value; key == RedisKey(p.tenant, p.date, p.model)
  {
    hide SplitN, IndexOf;
    var rest := key[6..];
    assert key == "usage:" + rest;
    SplitAt(rest, 3);
    var tail := rest[IndexOf(rest, ":") + 1..];
    SplitAt(tail, 2);
    SplitNLast(tail[IndexOf(tail, ":") + 1..]);
  }

  /** The flush queue shares the counters' prefix but is never taken for a counter. */
  lemma {:induction false} FlushQueueNeverParses()
    ensures ParseUsageKey(FLUSH_QUEUE) == None
  {
    assert FLUSH_QUEUE[6..] == "flush" + ":" + "queue";
    SplitNAtColon("flush", "queue", 3);
    IndexOfNone("queue", ':');
  }

  /** What a scan for one tenant returns and the parser accepts belongs to that tenant. */
  lemma {:induction false} PrefixFixesTenant(key: string, tenant: string)
    requires ':' !in tenant
    requires TenantPrefix(tenant) <= key
    requires ParseUsageKey(key).Some?
    ensures ParseUsageKey(key).value.tenant == tenant
  {
    var rest := key[|TenantPrefix(tenant)|..];
    assert key[6..] == tenant + ":" + rest;
    SplitNAtColon(tenant, rest, 3);
  }

  /** Distinct colon-free tenants never share a scan prefix, so scans do not overlap. */
  lemma {:induction false} PrefixMatchesOwnKeys(tenant: string, owner: string, date: string, model: string)
    requires ':' !in tenant && ':' !in owner && ':' !in date && model != ""
    ensures TenantPrefix(tenant) <= RedisKey(owner, date, model) <==> tenant == owner
  {
    KeyRoundTrip(owner, date, model);
    var key := RedisKey(owner, date, model);
    if TenantPrefix(tenant) <= key {
      PrefixFixesTenant(key, tenant);
    }
    assert key[..|TenantPrefix(owner)|] == TenantPrefix(owner);
  }

  /**
   * With a colon in a tenant ID the parser attributes its counters to another tenant:
   * the keys of tenant `a:b` match the scan of tenant `a` and read as keys of `a`.
   */
  lemma {:induction false} ColonTenantIsMisattributed(a: string, b: string, date: string, model: string)
    requires ':' !in a && ':' !in b
    ensures TenantPrefix(a) <= RedisKey(a + ":" + b, date, model)
    ensures ParseUsageKey(RedisKey(a + ":" + b, date, model)) == Some(KeyParts(a, b, date + ":" + model))
  {
    var key := RedisKey(a + ":" + b, date, model);
    assert key == RedisKey(a, b, date + ":" + model);
    assert key[..|TenantPrefix(a)|] == TenantPrefix(a);
    KeyRoundTrip(a, b, date + ":" + model);
  }
}
