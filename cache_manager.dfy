/**
  * `CacheManager`: a directory of JSON files, one per key, each holding
  * `{expires_at, data, key_data, namespace}`. The directory is the field `store`,
  * a map from the key a file is named after to what reading that file gives.
  * The clock is the argument `now` (whole seconds); the file-system failures the
  * source swallows are arguments that say which operation fails.
  */
module Cache {
  import opened Text
  import opened JsonValue

  /** `namespace + "_" + sha256(json.dumps(key_data, sort_keys=True))`. SHA-256 is taken
      to be injective, and a JSON object has no key order, so the pair itself stands for
      the file name; `FileNameInjective` shows the name loses nothing. */
  datatype CacheKey = CacheKey(namespace: string, keyData: Json)

  /** The record `set` writes. */
  datatype Entry = Entry(expiresAt: int, data: Json, keyData: Json, namespace: string)

  /** What `get` finds in a file: a record, or something `json.load` or the
      `expires_at` comparison raises on (a file a failed `json.dump` left half-written). */
  datatype Slot = Stored(entry: Entry) | Unreadable

  /** How the write of `set` goes: written, `open` raised, or `json.dump` raised after
      `open` had truncated the file. */
  datatype WriteOutcome = Written | OpenFailed | DumpFailed

  const HexDigits: string := "0123456789abcdef"

  /** What `hexdigest()` of SHA-256 returns: 64 lower-case hex digits. */
  predicate HexDigest(h: string)
  {
    |h| == 64 && forall i | 0 <= i < |h| :: h[i] in HexDigits
  }

  /** The file name of line 50. */
  function FileName(namespace: string, digest: string): string
  {
    namespace + "_" + digest + ".json"
  }

  /** A fixed-length digest makes the file name determine namespace and digest. */
  lemma FileNameInjective(ns1: string, h1: string, ns2: string, h2: string)
    requires HexDigest(h1) && HexDigest(h2)
    ensures FileName(ns1, h1) == FileName(ns2, h2) <==> ns1 == ns2 && h1 == h2
  {
    var f1 := FileName(ns1, h1);
    var f2 := FileName(ns2, h2);
    if f1 == f2 {
      assert |ns1| == |ns2|;
      assert ns1 == f1[..|ns1|] == f2[..|ns2|] == ns2;
      assert h1 == f1[|ns1| + 1..|ns1| + 65] == f2[|ns2| + 1..|ns2| + 65] == h2;
    }
  }

  /** `fnmatch` of a name against `prefix*suffix`. */
  predicate StarMatch(name: string, prefix: string, suffix: string)
  {
    |prefix| + |suffix| <= |name| && StartsWith(name, prefix) && EndsWith(name, suffix)
  }

  /** A namespace that means itself inside a glob pattern: no wildcard, no character
      class and no directory separator. */
  predicate GlobFree(ns: string)
  {
    forall c | c in ns :: c != '*' && c != '?' && c != '[' && c != '/'
  }

  /** What `glob(ns + "_*.json")` selects, in terms of namespaces: the namespace itself and
      every namespace that starts with `ns + "_"`. */
  predicate InNamespace(keyNamespace: string, ns: string)
  {
    keyNamespace == ns || StartsWith(keyNamespace, ns + "_")
  }

  /** Past the namespace and its separator, an underscore can only be the separator itself:
      the digest has none. */
  lemma UnderscoreBound(keyNamespace: string, digest: string, i: int)
    requires HexDigest(digest)
    requires 0 <= i < |keyNamespace| + 65 && FileName(keyNamespace, digest)[i] == '_'
    ensures i <= |keyNamespace|
  {
    var name := FileName(keyNamespace, digest);
    assert forall j | |keyNamespace| < j < |keyNamespace| + 65 :: name[j] == digest[j - |keyNamespace| - 1];
    assert forall j | 0 <= j < |digest| :: digest[j] in HexDigits;
  }

  /** For a namespace without glob metacharacters, the glob of line 152 matches a cache
      file of the top directory exactly when its namespace is `ns` or starts with
      `ns + "_"`: a digest never contains an underscore. */
  lemma GlobSelectsNamespace(keyNamespace: string, digest: string, ns: string)
    requires HexDigest(digest) && GlobFree(ns) && '/' !in keyNamespace
    ensures StarMatch(FileName(keyNamespace, digest), ns + "_", ".json") <==> InNamespace(keyNamespace, ns)
  {
    var name := FileName(keyNamespace, digest);
    var p := ns + "_";
    assert EndsWith(name, ".json") by {
      assert name[|name| - 5..] == ".json";
    }
    if InNamespace(keyNamespace, ns) {
      if keyNamespace == ns {
        assert name[..|p|] == p;
      } else {
        assert name[..|p|] == keyNamespace[..|p|];
      }
    }
    if StarMatch(name, p, ".json") {
      assert name[..|p|] == p;
      assert name[|p| - 1] == p[|p| - 1] == '_';
      UnderscoreBound(keyNamespace, digest, |p| - 1);
      if |p| <= |keyNamespace| {
        assert keyNamespace[..|p|] == name[..|p|];
      } else {
        assert keyNamespace == name[..|keyNamespace|] == p[..|ns|] == ns;
      }
    }
  }

  /** `time.time() + (ttl or self.default_ttl)`: no TTL and a TTL of 0 both take the default. */
  function Expiry(now: int, ttl: Option<int>, defaultTtl: int): (e: int)
    ensures ttl.Some? && ttl.value != 0 ==> e == now + ttl.value
    ensures ttl.None? || ttl.value == 0 ==> e == now + defaultTtl
  {
    if ttl.None? || ttl.value == 0 then now + defaultTtl else now + ttl.value
  }

  /** What `get` returns for the file `k` at time `now`. */
  function Read(store: map<CacheKey, Slot>, k: CacheKey, now: int): Option<Json>
  {
    if k in store && store[k].Stored? && now <= store[k].entry.expiresAt then Some(store[k].entry.data)
    else None
  }

  /** `get` removes a file it finds expired. */
  predicate Expired(store: map<CacheKey, Slot>, k: CacheKey, now: int)
  {
    k in store && store[k].Stored? && now > store[k].entry.expiresAt
  }

  /** The directory after `get`: an expired file is removed unless the removal raises. */
  function AfterGet(store: map<CacheKey, Slot>, k: CacheKey, now: int, removeFails: bool): map<CacheKey, Slot>
  {
    if Expired(store, k, now) && !removeFails then store - {k} else store
  }

  /** The directory after `set` with the given write outcome. */
  function AfterSet(store: map<CacheKey, Slot>, k: CacheKey, e: Entry, outcome: WriteOutcome): map<CacheKey, Slot>
  {
    match outcome
    case Written => store[k := Stored(e)]
    case OpenFailed => store
    case DumpFailed => store[k := Unreadable]
  }

  /** The files `clear_namespace(ns)` removes: the matching ones whose removal does not fail. */
  function Removed(store: map<CacheKey, Slot>, ns: string, failing: set<CacheKey>): set<CacheKey>
  {
    set k | k in store && InNamespace(k.namespace, ns) && k !in failing
  }

  /** One file taken off the to-do set of a removal loop: it joins the removed ones if
      it is to be removed, and nothing changes otherwise. */
  lemma TakeStep(target: set<CacheKey>, todo: set<CacheKey>, removed: set<CacheKey>, k: CacheKey)
    requires removed == target - todo && k in todo
    ensures k in target ==> removed + {k} == target - (todo - {k})
    ensures k !in target ==> removed == target - (todo - {k})
  {
  }

  /** Removing one more file keeps the directory equal to what it was less the removed files. */
  lemma DropKey(store: map<CacheKey, Slot>, before: map<CacheKey, Slot>, removed: set<CacheKey>, k: CacheKey)
    requires store.Keys == before.Keys - removed
    ensures (store - {k}).Keys == before.Keys - (removed + {k})
  {
  }

  /** A written entry is read back exactly, up to and including its expiry second. */
  lemma GetAfterSet(store: map<CacheKey, Slot>, ns: string, keyData: Json, data: Json,
                    ttl: Option<int>, now: int, defaultTtl: int, later: int)
    requires later <= Expiry(now, ttl, defaultTtl)
    ensures Read(AfterSet(store, CacheKey(ns, keyData), Entry(Expiry(now, ttl, defaultTtl), data, keyData, ns), Written),
                 CacheKey(ns, keyData), later) == Some(data)
  {
  }

  /** Expiry is strict: a hit at the expiry second, a miss (and removal) one second after. */
  lemma ExpiryIsStrict(store: map<CacheKey, Slot>, k: CacheKey, e: Entry)
    requires k in store && store[k] == Stored(e)
    ensures Read(store, k, e.expiresAt) == Some(e.data) && !Expired(store, k, e.expiresAt)
    ensures Read(store, k, e.expiresAt + 1).None? && Expired(store, k, e.expiresAt + 1)
  {
  }

  /** `set` touches only its own file, whatever the outcome. */
  lemma SetFrame(store: map<CacheKey, Slot>, k: CacheKey, e: Entry, outcome: WriteOutcome, other: CacheKey, now: int)
    requires other != k
    ensures (other in AfterSet(store, k, e, outcome)) == (other in store)
    ensures Read(AfterSet(store, k, e, outcome), other, now) == Read(store, other, now)
  {
  }

  class CacheManager {
    var store: map<CacheKey, Slot>
    const defaultTtl: int

    /** `CacheManager(cache_dir, default_ttl)` over a directory holding `existing`. */
    constructor (defaultTtl: int, existing: map<CacheKey, Slot>)
      ensures store == existing && this.defaultTtl == defaultTtl
    {
      this.defaultTtl := defaultTtl;
      store := existing;
    }

    /** `get(namespace, key_data)` at time `now`; `removeFails` says whether the removal of
        an expired file raises. */
    method Get(ns: string, keyData: Json, now: int, removeFails: bool) returns (r: Option<Json>)
      modifies this
      ensures r == Read(old(store), CacheKey(ns, keyData), now)
      ensures store == AfterGet(old(store), CacheKey(ns, keyData), now, removeFails)
    {
      var k := CacheKey(ns, keyData);
      if k !in store {
        return None;
      }
      var slot := store[k];
      if slot.Unreadable? {
        return None;
      }
      if now > slot.entry.expiresAt {
        var _ := Delete(ns, keyData, removeFails);
        return None;
      }
      return Some(slot.entry.data);
    }

    /** `set(namespace, key_data, data, ttl)` at time `now`. */
    method Set(ns: string, keyData: Json, data: Json, ttl: Option<int>, now: int, outcome: WriteOutcome)
      modifies this
      ensures store == AfterSet(old(store), CacheKey(ns, keyData), Entry(Expiry(now, ttl, defaultTtl), data, keyData, ns), outcome)
    {
      var k := CacheKey(ns, keyData);
      var expiresAt := now + (if ttl.None? || ttl.value == 0 then defaultTtl else ttl.value);
      var record := Entry(expiresAt, data, keyData, ns);
      if outcome == OpenFailed {
        return;
      }
      if outcome == DumpFailed {
        store := store[k := Unreadable];
        return;
      }
      store := store[k := Stored(record)];
    }

    /** `delete(namespace, key_data)`; `removeFails` says whether `os.remove` raises. */
    method Delete(ns: string, keyData: Json, removeFails: bool) returns (deleted: bool)
      modifies this
      ensures deleted <==> CacheKey(ns, keyData) in old(store) && !removeFails
      ensures store == if deleted then old(store) - {CacheKey(ns, keyData)} else old(store)
    {
      var k := CacheKey(ns, keyData);
      if k in store {
        if removeFails {
          return false;
        }
        store := store - {k};
        return true;
      }
      return false;
    }

    /** `clear_namespace(namespace)`: the files in `failing` raise `OSError` on removal and
        are skipped; `globFails` makes the listing itself raise. */
    method ClearNamespace(ns: string, failing: set<CacheKey>, globFails: bool) returns (count: int)
      requires GlobFree(ns)
      modifies this
      ensures globFails ==> count == 0 && store == old(store)
      ensures !globFails ==> count == |Removed(old(store), ns, failing)|
      ensures !globFails ==> store.Keys == old(store).Keys - Removed(old(store), ns, failing)
      ensures forall k | k in store :: k in old(store) && store[k] == old(store)[k]
    {
      if globFails {
        return 0;
      }
      var todo := set k | k in store && InNamespace(k.namespace, ns);
      ghost var before := store;
      ghost var removed: set<CacheKey> := {};
      count := 0;
      while todo != {}
        invariant forall k | k in todo :: k in before && InNamespace(k.namespace, ns)
        invariant removed == Removed(before, ns, failing) - todo
        invariant count == |removed|
        invariant store.Keys == before.Keys - removed
        invariant forall k | k in store :: k in before && store[k] == before[k]
        decreases |todo|
      {
        var k :| k in todo;
        assert k in Removed(before, ns, failing) <==> k !in failing;
        TakeStep(Removed(before, ns, failing), todo, removed, k);
        if k !in failing {
          assert k !in removed;
          DropKey(store, before, removed, k);
          store := store - {k};
          removed := removed + {k};
          count := count + 1;
        }
        todo := todo - {k};
      }
    }

    /** `clear_all()`: every file but those in `failing` is removed. */
    method ClearAll(failing: set<CacheKey>, globFails: bool) returns (count: int)
      modifies this
      ensures globFails ==> count == 0 && store == old(store)
      ensures !globFails ==> count == |old(store).Keys - failing|
      ensures !globFails ==> store.Keys == old(store).Keys * failing
      ensures forall k | k in store :: k in old(store) && store[k] == old(store)[k]
    {
      if globFails {
        return 0;
      }
      var todo := store.Keys;
      ghost var removed: set<CacheKey> := {};
      ghost var before := store;
      count := 0;
      while todo != {}
        invariant todo <= before.Keys
        invariant removed == (before.Keys - todo) - failing
        invariant count == |removed|
        invariant store.Keys == before.Keys - removed
        invariant forall k | k in store :: k in before && store[k] == before[k]
        decreases |todo|
      {
        var k :| k in todo;
        if k !in failing {
          assert k !in removed;
          store := store - {k};
          removed := removed + {k};
          count := count + 1;
        }
        todo := todo - {k};
      }
    }
  }
}
