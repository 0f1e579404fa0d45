/** The map of data points by label values, its sweep, and the expirer that decides when to sweep. */
module Expiry {

  type Time = int

  // ---------------------------------------------------------------- the key of a label vector

  /** `strings.Join` with a colon. */
  function LabelsKey(lbls: seq<string>): string {
    if lbls == [] then "" else if |lbls| == 1 then lbls[0] else lbls[0] + ":" + LabelsKey(lbls[1..])
  }

  predicate NoColon(lbls: seq<string>) {
    forall i :: 0 <= i < |lbls| ==> ':' !in lbls[i]
  }

  function Colons(s: string): nat {
    if s == "" then 0 else (if s[0] == ':' then 1 else 0) + Colons(s[1..])
  }

  function ColonsIn(lbls: seq<string>): nat {
    if lbls == [] then 0 else Colons(lbls[0]) + ColonsIn(lbls[1..])
  }

  lemma {:induction false} ColonsAppend(s: string, t: string)
    ensures Colons(s + t) == Colons(s) + Colons(t)
  {
    if s == "" {
      assert s + t == t;
    } else {
      assert (s + t)[1..] == s[1..] + t;
      ColonsAppend(s[1..], t);
    }
  }

  lemma {:induction false} NoneCounted(s: string)
    ensures Colons(s) == 0 <==> ':' !in s
  {
    if s == "" {
    } else {
      NoneCounted(s[1..]);
      assert s == [s[0]] + s[1..];
    }
  }

  lemma {:induction false} NoneCountedIn(lbls: seq<string>)
    ensures ColonsIn(lbls) == 0 <==> NoColon(lbls)
  {
    if lbls == [] {
    } else {
      NoneCounted(lbls[0]);
      NoneCountedIn(lbls[1..]);
      assert lbls == [lbls[0]] + lbls[1..];
    }
  }

  lemma {:induction false} ColonsOfKey(lbls: seq<string>)
    requires lbls != []
    ensures Colons(LabelsKey(lbls)) == ColonsIn(lbls) + |lbls| - 1
  {
    if |lbls| > 1 {
      ColonsOfKey(lbls[1..]);
      ColonsAppend(lbls[0] + ":", LabelsKey(lbls[1..]));
      ColonsAppend(lbls[0], ":");
      assert Colons(":") == 1;
    } else {
      assert ColonsIn(lbls[1..]) == 0;
    }
  }

  /** The text before the first colon. */
  lemma FirstPart(x: string, y: string, s: string, t: string)
    requires ':' !in x && ':' !in y && x + ":" + s == y + ":" + t
    ensures x == y && s == t
  {
    var l := x + ":" + s;
    assert l[|x|] == ':' && l[|y|] == ':';
    assert forall i :: 0 <= i < |x| ==> l[i] == x[i];
    assert forall i :: 0 <= i < |y| ==> l[i] == y[i];
    assert |x| == |y|;
    assert x == l[..|x|] == y;
    assert s == l[|x| + 1..] == t;
  }

  lemma {:induction false} FreeVectorsDiffer(a: seq<string>, b: seq<string>)
    requires |a| == |b| && NoColon(a) && NoColon(b) && LabelsKey(a) == LabelsKey(b)
    ensures a == b
  {
    if |a| <= 1 {
    } else {
      FirstPart(a[0], b[0], LabelsKey(a[1..]), LabelsKey(b[1..]));
      FreeVectorsDiffer(a[1..], b[1..]);
      assert a == [a[0]] + a[1..] && b == [b[0]] + b[1..];
    }
  }

  /** A vector without a colon in it has a key of its own among the vectors of its length. */
  lemma KeyIsOwn(a: seq<string>, b: seq<string>)
    requires |a| == |b| && NoColon(a) && LabelsKey(a) == LabelsKey(b)
    ensures a == b
  {
    if a != [] {
      ColonsOfKey(a);
      ColonsOfKey(b);
      NoneCountedIn(a);
      NoneCountedIn(b);
      FreeVectorsDiffer(a, b);
    }
  }

  /** The key of a vector whose k-th and next values trade a part around a colon. */
  lemma {:induction false} KeyOfTwo(pre: seq<string>, x: string, y: string, post: seq<string>)
    ensures LabelsKey(pre + [x, y] + post) == LabelsKey(pre + [x + ":" + y] + post)
  {
    var l, r := pre + [x, y] + post, pre + [x + ":" + y] + post;
    if pre == [] {
      assert l[1..] == [y] + post;
      assert l[0] == x && r[0] == x + ":" + y;
      if post == [] {
        assert LabelsKey(l[1..]) == y;
      } else {
        assert l[1..][1..] == post && r[1..] == post;
        assert LabelsKey(l) == x + ":" + (y + ":" + LabelsKey(post));
        assert LabelsKey(r) == (x + ":" + y) + ":" + LabelsKey(post);
      }
    } else {
      assert l[1..] == pre[1..] + [x, y] + post;
      assert r[1..] == pre[1..] + [x + ":" + y] + post;
      KeyOfTwo(pre[1..], x, y, post);
    }
  }

  /** The key has two readings as soon as a value holds a colon and there is another value. */
  lemma OtherReading(a: seq<string>, k: nat, x: string, y: string) returns (b: seq<string>)
    requires |a| >= 2 && k < |a| && a[k] == x + ":" + y
    ensures |b| == |a| && b != a && LabelsKey(b) == LabelsKey(a)
  {
    if k + 1 < |a| {
      var pre, z, post := a[..k], a[k + 1], a[k + 2..];
      b := pre + [x, y + ":" + z] + post;
      KeyOfTwo(pre, x, y + ":" + z, post);
      KeyOfTwo(pre, x + ":" + y, z, post);
      assert a == pre + [x + ":" + y, z] + post;
      assert x + ":" + (y + ":" + z) == (x + ":" + y) + ":" + z;
      assert |b[k]| < |a[k]|;
    } else {
      var pre, z := a[..k - 1], a[k - 1];
      b := pre + [z + ":" + x, y];
      KeyOfTwo(pre, z + ":" + x, y, []);
      KeyOfTwo(pre, z, x + ":" + y, []);
      assert a == pre + [z, x + ":" + y] + [];
      assert b == pre + [z + ":" + x, y] + [];
      assert pre + [(z + ":" + x) + ":" + y] + [] == pre + [z + ":" + (x + ":" + y)] + [] by {
        assert (z + ":" + x) + ":" + y == z + ":" + (x + ":" + y);
      }
      assert |b[k]| < |a[k]|;
    }
  }

  ghost predicate SharesKey(a: seq<string>, b: seq<string>) {
    |a| == |b| && b != a && LabelsKey(b) == LabelsKey(a)
  }

  /** Two or more labels: some other vector of that length has the same key exactly when one of the
      values holds a colon. */
  lemma SharedKeyIff(a: seq<string>)
    requires |a| >= 2
    ensures (exists b :: SharesKey(a, b)) <==> !NoColon(a)
  {
    if NoColon(a) {
      forall b | SharesKey(a, b)
        ensures false
      {
        KeyIsOwn(a, b);
      }
    } else {
      var k :| 0 <= k < |a| && ':' in a[k];
      var i :| 0 <= i < |a[k]| && a[k][i] == ':';
      assert a[k] == a[k][..i] + ":" + a[k][i + 1..];
      var b := OtherReading(a, k, a[k][..i], a[k][i + 1..]);
      assert SharesKey(a, b);
    }
  }

  // ---------------------------------------------------------------- the map

  datatype Entry<T> = Entry(lastAccess: Time, labelValues: seq<string>, val: T)

  predicate Expired<T>(e: Entry<T>, now: Time, ttl: Time) {
    now - e.lastAccess > ttl
  }

  /** What a sweep leaves. */
  function Kept<T>(entries: map<string, Entry<T>>, now: Time, ttl: Time): map<string, Entry<T>> {
    map k | k in entries && !Expired(entries[k], now, ttl) :: entries[k]
  }

  /** The values under the keys of `s`, each once, in some order. */
  ghost predicate Lists<T(!new)>(vals: seq<T>, entries: map<string, Entry<T>>, keys: seq<string>, s: set<string>) {
    && |vals| == |keys|
    && (forall i :: 0 <= i < |keys| ==> keys[i] in s && keys[i] in entries && vals[i] == entries[keys[i]].val)
    && (forall i, j :: 0 <= i < j < |keys| ==> keys[i] != keys[j])
    && (forall k :: k in s ==> k in keys)
  }

  lemma ListOneMore<T(!new)>(vals: seq<T>, entries: map<string, Entry<T>>, keys: seq<string>, s: set<string>, k: string)
    requires Lists(vals, entries, keys, s) && k in entries && k !in s
    ensures Lists(vals + [entries[k].val], entries, keys + [k], s + {k})
  {
    var keys' := keys + [k];
    assert forall i :: 0 <= i < |keys| ==> keys'[i] == keys[i];
    assert keys'[|keys|] == k;
  }

  class ExpiryMap<T(!new)> {
    const ttl: Time
    var entries: map<string, Entry<T>>

    constructor (ttl: Time)
      ensures this.ttl == ttl && entries == map[]
    {
      this.ttl, entries := ttl, map[];
    }

    /** The instance stored for the labels, or the new one, its access time set either way. */
    method GetOrCreate(lbls: seq<string>, instance: T, now: Time) returns (val: T)
      modifies this
      ensures var h := LabelsKey(lbls);
              && val == (if h in old(entries) then old(entries)[h].val else instance)
              && entries ==
                 old(entries)[h := Entry(now, if h in old(entries) then old(entries)[h].labelValues else lbls, val)]
    {
      var h := LabelsKey(lbls);
      if h in entries {
        entries := entries[h := entries[h].(lastAccess := now)];
        return entries[h].val;
      }
      entries := entries[h := Entry(now, lbls, instance)];
      return instance;
    }

    /** The first pass, under the read lock. */
    method CollectExpired(now: Time) returns (keys: seq<string>, vals: seq<T>)
      ensures Lists(vals, entries, keys, Outdated(entries, entries.Keys, now, ttl))
    {
      keys, vals := [], [];
      var left := entries.Keys;
      while left != {}
        invariant left <= entries.Keys
        invariant Lists(vals, entries, keys, Outdated(entries, entries.Keys - left, now, ttl))
        decreases |left|
      {
        hide Lists, Outdated;
        var k :| k in left;
        ghost var seen := entries.Keys - left;
        left := left - {k};
        OutdatedGrows(entries, seen, k, now, ttl);
        assert entries.Keys - left == seen + {k};
        if now - entries[k].lastAccess > ttl {
          NotYetListed(entries, seen, k, now, ttl);
          ListOneMore(vals, entries, keys, Outdated(entries, seen, now, ttl), k);
          keys, vals := keys + [k], vals + [entries[k].val];
        } else {
          assert Outdated(entries, seen + {k}, now, ttl) == Outdated(entries, seen, now, ttl);
        }
      }
      assert entries.Keys - left == entries.Keys;
    }

    /** Collects the expired, then deletes them: the entries split into the kept and the returned. */
    method DeleteExpired(now: Time) returns (deleted: seq<T>, ghost keys: seq<string>)
      modifies this
      ensures entries == Kept(old(entries), now, ttl)
      ensures Lists(deleted, old(entries), keys, old(entries).Keys - entries.Keys)
    {
      var delKeys: seq<string>;
      delKeys, deleted := CollectExpired(now);
      keys := delKeys;
      var i := 0;
      while i < |delKeys|
        invariant 0 <= i <= |delKeys|
        invariant entries == map k | k in old(entries) && k !in delKeys[..i] :: old(entries)[k]
      {
        entries := entries - {delKeys[i]};
        i := i + 1;
      }
      assert delKeys[..i] == delKeys;
      assert old(entries).Keys - entries.Keys == Outdated(old(entries), old(entries).Keys, now, ttl);
    }

    method DeleteAll() returns (deleted: seq<T>, ghost keys: seq<string>)
      modifies this
      ensures entries == map[] && Lists(deleted, old(entries), keys, old(entries).Keys)
    {
      deleted, keys := [], [];
      while entries.Keys != {}
        invariant forall k :: k in entries ==> k in old(entries) && entries[k] == old(entries)[k]
        invariant Lists(deleted, old(entries), keys, old(entries).Keys - entries.Keys)
        decreases |entries.Keys|
      {
        var k :| k in entries.Keys;
        ghost var before := entries.Keys;
        ListOneMore(deleted, old(entries), keys, old(entries).Keys - before, k);
        deleted, keys := deleted + [entries[k].val], keys + [k];
        entries := entries - {k};
        assert entries.Keys == before - {k};
        assert old(entries).Keys - entries.Keys == old(entries).Keys - before + {k};
      }
      assert old(entries).Keys - entries.Keys == old(entries).Keys;
    }
  }

  ghost function Outdated<T>(entries: map<string, Entry<T>>, among: set<string>, now: Time, ttl: Time): set<string> {
    set k | k in among && k in entries && Expired(entries[k], now, ttl)
  }

  lemma NotYetListed<T>(entries: map<string, Entry<T>>, seen: set<string>, k: string, now: Time, ttl: Time)
    requires k !in seen
    ensures k !in Outdated(entries, seen, now, ttl)
  {
  }

  lemma OutdatedGrows<T>(entries: map<string, Entry<T>>, seen: set<string>, k: string, now: Time, ttl: Time)
    requires k in entries
    ensures Outdated(entries, seen + {k}, now, ttl) ==
              Outdated(entries, seen, now, ttl) + (if Expired(entries[k], now, ttl) then {k} else {})
  {
  }
}
