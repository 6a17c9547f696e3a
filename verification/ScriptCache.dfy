/**
 * The per-interpreter script cache (mod_rivet_cache.c) and its two clients in rivetCore.c: first as a
 * function from operations to answers, then as the object the source updates in place.
 */
module ScriptCache {

  import opened Prelude
  import opened CacheKey

  type Script = string

  /** What reading and compiling a file gives; on failure some of the script may have been built. */
  datatype Outcome = Compiled(script: Script) | Unreadable(partial: Script)

  datatype Answer =
    | Evaluated(script: Script)
    | Returned(script: Script)
    | RecursiveCall
    | StatFailed
    | ReadFailed

  // ----- The cache as a value -----

  /** Keys newest first, as they lie in `objCacheList` from `cache_free` up. */
  datatype Cache = Cache(size: nat, keys: seq<string>, table: map<string, Script>, full: bool)

  /** The list and the hash table hold the same keys, the list without repeats, and within the size. */
  ghost predicate Agrees(c: Cache) {
    && |c.keys| <= c.size && NoRepeats(c.keys)
    && forall k :: k in c.table <==> k in c.keys
  }

  function Stored(c: Cache, key: string, script: Script): Cache {
    if |c.keys| < c.size then c.(keys := [key] + c.keys, table := c.table[key := script])
    else c.(full := true)
  }

  function Emptied(c: Cache, poolCreated: bool): Cache {
    Cache(if poolCreated then c.size else 0, [], map[], c.full)
  }

  /** `Rivet_Parse` from the lookup on. */
  function ParseStep(c: Cache, key: string, compiled: Outcome): (Cache, Answer) {
    if key in c.table then (c, Evaluated(c.table[key]))
    else match compiled
      case Compiled(s) => (Stored(c, key, s), Evaluated(s))
      case Unreadable(_) => (c, ReadFailed)
  }

  /** `Rivet_UrlScript`: a file that does not compile still answers with what was built. */
  function UrlStep(c: Cache, key: string, compiled: Outcome): (Cache, Answer) {
    if key in c.table then (c, Returned(c.table[key]))
    else match compiled
      case Compiled(s) => (Stored(c, key, s), Returned(s))
      case Unreadable(partial) => (c, Returned(partial))
  }

  lemma StoredAgrees(c: Cache, key: string, script: Script)
    requires Agrees(c) && key !in c.table
    ensures Agrees(Stored(c, key, script))
  {
  }

  // ----- The key list as a sequence -----

  ghost function Listed(keys: seq<string>): set<string> { set k | k in keys }

  predicate UsedFrom(list: seq<Option<string>>, free: nat) {
    free <= |list| && forall i :: 0 <= i < |list| ==> (list[i].Some? <==> free <= i)
  }

  function Unwrapped(s: seq<Option<string>>): (r: seq<string>)
    requires forall i :: 0 <= i < |s| ==> s[i].Some?
    ensures |r| == |s| && forall i :: 0 <= i < |s| ==> r[i] == s[i].value
  {
    if s == [] then [] else [s[0].value] + Unwrapped(s[1..])
  }

  lemma PutInFront(list: seq<Option<string>>, free: nat, key: string)
    requires UsedFrom(list, free) && free > 0
    ensures UsedFrom(list[free - 1 := Some(key)], free - 1)
    ensures Unwrapped(list[free - 1 := Some(key)][free - 1..]) == [key] + Unwrapped(list[free..])
  {
    assert list[free - 1 := Some(key)][free - 1..] == [Some(key)] + list[free..];
  }

  // ----- The cache as an object -----

  /** A Tcl value holding a script, with its reference count. */
  class TclObj {
    const text: Script
    var refCount: nat

    constructor (text: Script)
      ensures this.text == text && refCount == 0
    {
      this.text := text;
      refCount := 0;
    }

    method IncrRefCount()
      modifies this
      ensures refCount == old(refCount) + 1
    {
      refCount := refCount + 1;
    }

    method DecrRefCount()
      requires refCount > 0
      modifies this
      ensures refCount == old(refCount) - 1
    {
      refCount := refCount - 1;
    }
  }

  class ThreadInterp {
    var cacheSize: nat
    var cacheFree: nat
    var objCacheList: array<Option<string>>
    var objCache: map<string, TclObj>
    /** False while `objCache` is null, which it stays when the configured size is 0. */
    var tableCreated: bool
    var cacheFull: bool
    var notices: nat
    /** What `Tcl_SetObjResult` last stored. */
    var result: TclObj?

    ghost predicate InTable(o: TclObj)
      reads this
    {
      exists k :: k in objCache && objCache[k] == o
    }

    /** References held on a script: one by the table, one by the interpreter's result. */
    ghost function Held(o: TclObj): nat
      reads this
    {
      Bit(InTable(o)) + Bit(o == result)
    }

    /** The list is in use exactly from `cacheFree` up. */
    ghost predicate Shape()
      reads this, objCacheList
    {
      && cacheSize == objCacheList.Length && UsedFrom(objCacheList[..], cacheFree)
      && (!tableCreated ==> cacheSize == 0)
    }

    ghost function Keys(): seq<string>
      reads this, objCacheList
      requires Shape()
    {
      Unwrapped(objCacheList[..][cacheFree..])
    }

    /** The table as a value. */
    ghost function Texts(table: map<string, TclObj>): map<string, Script> {
      map k | k in table :: table[k].text
    }

    ghost function Model(): Cache
      reads this, objCacheList
      requires Shape()
    {
      Cache(cacheSize, Keys(), Texts(objCache), cacheFull)
    }

    /** List and table agree, and every count is the number of holders, a client holding `mine` being one. */
    ghost predicate ValidWith(mine: TclObj?)
      reads this, objCacheList, objCache.Values, result, mine
    {
      Shape() && Agrees(Model()) && Counted(mine)
    }

    ghost predicate Counted(mine: TclObj?)
      reads this, objCache.Values, result, mine
    {
      && (forall k, l :: k in objCache && l in objCache && k != l ==> objCache[k] != objCache[l])
      && (forall k :: k in objCache ==>
        objCache[k].refCount == 1 + Bit(objCache[k] == result) + Bit(objCache[k] == mine))
      && (result != null ==> result.refCount == Bit(InTable(result)) + 1 + Bit(result == mine))
      && (mine != null ==> mine.refCount == Held(mine) + 1)
    }

    ghost predicate Valid()
      reads this, objCacheList, objCache.Values, result
    {
      ValidWith(null)
    }

    /** `Rivet_NewVHostInterp` with the cache size the configuration gives; 0 disables the cache. */
    constructor (size: nat)
      ensures Valid() && Model() == Cache(size, [], map[], false) && result == null && notices == 0
      ensures fresh(objCacheList) && (tableCreated <==> size > 0)
    {
      cacheSize, cacheFree := size, size;
      objCacheList := new Option<string>[size](_ => None);
      objCache, tableCreated := map[], size > 0;
      cacheFull, notices, result := false, 0, null;
    }

    /** The counts after a script with one holder has been given a second one, the table. */
    lemma Added(key: string, script: TclObj, before: map<string, TclObj>)
      requires key !in before && objCache == before[key := script]
      requires forall k, l :: k in before && l in before && k != l ==> before[k] != before[l]
      requires forall k :: k in before ==> before[k] != script && before[k].refCount == 1 + Bit(before[k] == result)
      requires result != null ==> result.refCount == Bit(exists k :: k in before && before[k] == result) + 1
      requires script != result && script.refCount == 2
      ensures Counted(script)
    {
      assert objCache[key] == script;
      assert forall k :: k in before ==> objCache[k] == before[k];
    }

    lemma TextsOfOneMore(table: map<string, TclObj>, key: string, script: TclObj)
      ensures Texts(table[key := script]) == Texts(table)[key := script.text]
    {
    }

    /** The list after a key has been put in front of it. */
    lemma KeyInFront(key: string, list: seq<Option<string>>)
      requires UsedFrom(list, cacheFree + 1) && cacheSize == objCacheList.Length == |list| && tableCreated
      requires objCacheList[..] == list[cacheFree := Some(key)]
      ensures Shape() && Keys() == [key] + Unwrapped(list[cacheFree + 1..])
    {
      PutInFront(list, cacheFree + 1, key);
    }

    lemma Linked(key: string, script: TclObj, before: Cache)
      requires Shape() && Agrees(before) && key !in before.table && |before.keys| < before.size
      requires Model() == Cache(before.size, [key] + before.keys, before.table[key := script.text], before.full)
      ensures Agrees(Model()) && Model() == Stored(before, key, script.text)
    {
      StoredAgrees(before, key, script.text);
    }

    /** The table takes a reference. */
    method Enter(hashKey: string, script: TclObj)
      requires Counted(script) && hashKey !in objCache && Held(script) == 0
      modifies this`objCache, script
      ensures Counted(script) && objCache == old(objCache)[hashKey := script]
    {
      ghost var table := objCache;
      script.IncrRefCount();
      objCache := objCache[hashKey := script];
      Added(hashKey, script, table);
    }

    /** The key goes in front of the list. */
    method PutKey(hashKey: string)
      requires Shape() && cacheFree > 0
      modifies this`cacheFree, objCacheList
      ensures Shape() && Keys() == [hashKey] + old(Keys())
      ensures cacheFree == old(cacheFree) - 1
    {
      ghost var list := objCacheList[..];
      cacheFree := cacheFree - 1;
      objCacheList[cacheFree] := Some(hashKey);
      KeyInFront(hashKey, list);
    }

    /** The table takes a reference and the key goes in front of the list. */
    method Link(hashKey: string, script: TclObj)
      requires ValidWith(script) && hashKey !in objCache && Held(script) == 0 && cacheFree > 0
      modifies this`objCache, this`cacheFree, objCacheList, script
      ensures ValidWith(script) && Model() == Stored(old(Model()), hashKey, script.text)
    {
      ghost var was := Model();
      TextsOfOneMore(objCache, hashKey, script);
      Enter(hashKey, script);
      PutKey(hashKey);
      Linked(hashKey, script, was);
    }

    /** `RivetCache_StoreScript`, with the table entry its callers create just before it. */
    method StoreScript(hashKey: string, script: TclObj) returns (rc: int)
      requires ValidWith(script) && hashKey !in objCache && Held(script) == 0
      modifies this`objCache, this`cacheFree, objCacheList, script
      ensures ValidWith(script)
      ensures rc == if cacheSize > 0 && old(cacheFree) == 0 then 1 else 0
      ensures Model() == if old(cacheFree) > 0 then Stored(old(Model()), hashKey, script.text) else old(Model())
    {
      if cacheSize > 0 {
        if cacheFree > 0 {
          Link(hashKey, script);
          return 0;
        } else {
          return 1;
        }
      }
      return 0;
    }

    /** What both clients do with a freshly compiled script they hold the only reference on. */
    method Remember(cacheKey: string, script: TclObj)
      requires ValidWith(script) && cacheKey !in objCache && Held(script) == 0
      modifies this`objCache, this`cacheFree, this`cacheFull, this`notices, objCacheList, script
      ensures ValidWith(script)
      ensures Model() == Stored(old(Model()), cacheKey, script.text)
      ensures notices == old(notices) + Bit(old(cacheFree == 0 && !cacheFull))
    {
      if cacheFree > 0 {
        var isNew := if cacheKey !in objCache then 1 else 0;
        assert isNew == 1;
        var _ := StoreScript(cacheKey, script);
      } else if !cacheFull {
        cacheFull := true;
        notices := notices + 1;
      }
    }

    /** `Rivet_Parse` on a file: the checks, the lookup, and one evaluation. */
    method Parse(filename: string, encoding: Option<string>, requestFile: string, info: Option<(Time, Time)>,
        userConf: bool, compiled: Outcome)
      returns (answer: Answer)
      requires Valid() && tableCreated
      modifies this`objCache, this`cacheFree, this`cacheFull, this`notices, objCacheList
      ensures Valid()
      ensures filename == requestFile ==> answer == RecursiveCall && Model() == old(Model())
      ensures filename != requestFile && info.None? ==> answer == StatFailed && Model() == old(Model())
      ensures filename != requestFile && info.Some? ==>
        var v := Version(filename, encoding, info.value.0, info.value.1, userConf, false);
        (Model(), answer) == ParseStep(old(Model()), MakeKey(v), compiled)
    {
      if filename == requestFile { return RecursiveCall; }
      if info.None? { return StatFailed; }
      var cacheKey := MakeKey(Version(filename, encoding, info.value.0, info.value.1, userConf, false));
      if cacheKey !in objCache {
        if compiled.Unreadable? { return ReadFailed; }
        var script := new TclObj(compiled.script);
        script.IncrRefCount();
        assert Held(script) == 0;
        Remember(cacheKey, script);
        answer := Evaluated(script.text);
        script.DecrRefCount();
      } else {
        answer := Evaluated(objCache[cacheKey].text);
      }
    }

    /** `Tcl_SetObjResult`. */
    method SetObjResult(script: TclObj, ghost mine: TclObj?)
      requires ValidWith(mine) && (InTable(script) || mine == script)
      modifies this`result, result, script
      ensures ValidWith(mine) && result == script && Model() == old(Model())
    {
      MoveResult(script, mine);
      assert Model() == old(Model());
    }

    /** The result takes a reference on the new script before it gives up the one on the old script. */
    method MoveResult(script: TclObj, ghost mine: TclObj?)
      requires Counted(mine) && (InTable(script) || mine == script)
      modifies this`result, result, script
      ensures Counted(mine) && result == script
    {
      var previous := result;
      script.IncrRefCount();
      result := script;
      if previous != null { previous.DecrRefCount(); }
    }

    /** The branch of `Rivet_UrlScript` that compiles: only a whole script is remembered. */
    method CompileForUrl(cacheKey: string, compiled: Outcome)
      requires Valid() && cacheKey !in objCache
      modifies this`objCache, this`cacheFree, this`cacheFull, this`notices, this`result, objCacheList, result
      ensures Valid() && result != null
      ensures (Model(), Returned(result.text)) == UrlStep(old(Model()), cacheKey, compiled)
    {
      var script := new TclObj(if compiled.Compiled? then compiled.script else compiled.partial);
      script.IncrRefCount();
      assert Held(script) == 0;
      if compiled.Compiled? { Remember(cacheKey, script); }
      SetObjResult(script, script);
      script.DecrRefCount();
    }

    /** `Rivet_UrlScript`: the script is left as the interpreter's result. */
    method UrlScript(filename: string, ctime: Time, mtime: Time, userConf: bool, compiled: Outcome)
      requires Valid() && tableCreated
      modifies this`objCache, this`cacheFree, this`cacheFull, this`notices, this`result
      modifies objCacheList, objCache.Values, result
      ensures Valid() && result != null
      ensures
        var v := Version(filename, None, ctime, mtime, userConf, true);
        (Model(), Returned(result.text)) == UrlStep(old(Model()), MakeKey(v), compiled)
    {
      var cacheKey := MakeKey(Version(filename, None, ctime, mtime, userConf, true));
      if cacheKey !in objCache {
        CompileForUrl(cacheKey, compiled);
      } else {
        assert InTable(objCache[cacheKey]);
        SetObjResult(objCache[cacheKey], null);
      }
    }

    /** One entry of the clean-up: the table gives up its reference. */
    method DropEntry(key: string)
      requires Counted(null) && key in objCache
      modifies this`objCache, objCache[key]
      ensures Counted(null) && objCache == old(objCache) - {key}
      ensures old(objCache)[key].refCount == Bit(old(objCache)[key] == result)
    {
      var script := objCache[key];
      script.DecrRefCount();
      objCache := objCache - {key};
      assert forall k :: k in objCache ==> objCache[k] == old(objCache[k]) != script;
      assert !InTable(script);
      assert old(InTable(script));
      assert result != null && result != script ==> (InTable(result) <==> old(InTable(result)));
    }

    /** The table no longer holds the scripts of these keys. */
    ghost predicate Released(table: map<string, TclObj>, keys: seq<string>)
      reads this, table.Values
    {
      forall k :: k in keys && k in table ==> table[k].refCount == Bit(table[k] == result)
    }

    /** The clean-up loop at index `ct`: the keys below it have left the table, which held them all. */
    ghost predicate Dropping(ct: nat, table: map<string, TclObj>, keys: seq<string>)
      reads this, objCacheList, objCache.Values, table.Values, result
    {
      && cacheFree <= ct <= cacheSize == objCacheList.Length && |keys| == cacheSize - cacheFree
      && NoRepeats(keys) && (forall k :: k in keys <==> k in table)
      && (forall k, l :: k in table && l in table && k != l ==> table[k] != table[l])
      && (forall i :: ct <= i < cacheSize ==> objCacheList[i] == Some(keys[i - cacheFree]))
      && Dropped(ct - cacheFree, table, keys)
    }

    /** One turn of the clean-up loop. */
    method DropAt(ct: nat, ghost table: map<string, TclObj>, ghost keys: seq<string>)
      requires ct < cacheSize && Dropping(ct, table, keys)
      modifies this`objCache, objCacheList, objCache.Values
      ensures Dropping(ct + 1, table, keys) && objCache.Values <= old(objCache.Values)
    {
      var key := objCacheList[ct].value;
      ghost var done := ct - cacheFree;
      NextListed(keys, done);
      if key in objCache {
        DropListed(key, done, table, keys);
        objCacheList[ct] := None;
      }
    }

    /** The table after the listed keys below `n` have left it. */
    ghost predicate Dropped(n: nat, table: map<string, TclObj>, keys: seq<string>)
      requires n <= |keys|
      reads this, objCache.Values, table.Values, result
    {
      objCache == table - Listed(keys[..n]) && Counted(null) && Released(table, keys[..n])
    }

    method DropListed(key: string, ghost n: nat, ghost table: map<string, TclObj>, ghost keys: seq<string>)
      requires n < |keys| && key == keys[n] && NoRepeats(keys) && key in objCache && Dropped(n, table, keys)
      requires forall k, l :: k in table && l in table && k != l ==> table[k] != table[l]
      modifies this`objCache, objCache[key]
      ensures Dropped(n + 1, table, keys) && objCache.Values <= old(objCache.Values)
    {
      NextListed(keys, n);
      DropEntry(key);
      assert table - Listed(keys[..n]) - {key} == table - Listed(keys[..n + 1]);
    }

    lemma NextListed(keys: seq<string>, n: nat)
      requires n < |keys| && NoRepeats(keys)
      ensures keys[n] in keys && keys[..n + 1] == keys[..n] + [keys[n]] && keys[n] !in keys[..n]
      ensures Listed(keys[..n + 1]) == Listed(keys[..n]) + {keys[n]}
    {
    }

    lemma DropStarts(keys: seq<string>)
      requires Valid() && keys == Keys()
      ensures Dropping(cacheFree, objCache, keys)
    {
      assert forall k :: k in objCache <==> k in Model().table;
      assert Listed(keys[..0]) == {};
      assert objCache - {} == objCache;
    }

    lemma DropEnds(table: map<string, TclObj>, keys: seq<string>)
      requires Dropping(cacheSize, table, keys)
      ensures objCache == map[] && Counted(null)
      ensures forall k :: k in table ==> table[k].refCount == Bit(table[k] == result)
    {
      assert keys[..cacheSize - cacheFree] == keys;
      assert forall k :: k in table ==> k in keys;
      assert objCache == map[];
    }

    /** The clean-up loop: from `cacheFree` up, every listed key leaves the table. */
    method DropAll(ghost table: map<string, TclObj>, ghost keys: seq<string>)
      requires Dropping(cacheFree, table, keys)
      modifies this`objCache, objCacheList, objCache.Values
      ensures Dropping(cacheSize, table, keys)
    {
      var ct := cacheFree;
      while ct < cacheSize
        invariant ct <= cacheSize && Dropping(ct, table, keys)
        invariant objCache.Values <= old(objCache.Values)
      {
        DropAt(ct, table, keys);
        ct := ct + 1;
      }
    }

    method EmptyTable()
      requires Valid()
      modifies this`objCache, objCacheList, objCache.Values
      ensures objCache == map[] && Counted(null)
      ensures forall k :: k in old(objCache) ==> old(objCache)[k].refCount == Bit(old(objCache)[k] == result)
    {
      ghost var keys, table := Keys(), objCache;
      DropStarts(keys);
      DropAll(table, keys);
      DropEnds(table, keys);
    }

    /** `RivetCache_Cleanup`: every script is released once and the table is left empty. */
    method Cleanup(poolCreated: bool)
      requires Valid()
      modifies this`objCache, this`cacheFree, this`cacheSize, this`objCacheList, objCacheList, objCache.Values
      ensures Valid() && Model() == Emptied(old(Model()), poolCreated)
      ensures forall k :: k in old(objCache) ==> old(objCache)[k].refCount == Bit(old(objCache)[k] == result)
    {
      EmptyTable();
      ResetList(poolCreated);
    }

    method ResetList(poolCreated: bool)
      requires objCache == map[] && Counted(null) && (!tableCreated ==> cacheSize == 0)
      modifies this`cacheFree, this`cacheSize, this`objCacheList
      ensures Valid() && Model() == Cache(if poolCreated then old(cacheSize) else 0, [], map[], cacheFull)
    {
      if !poolCreated {
        cacheFree, cacheSize := 0, 0;
        objCacheList := new Option<string>[0];
      } else {
        objCacheList := new Option<string>[cacheSize](_ => None);
        cacheFree := cacheSize;
      }
    }

    /** `Rivet_CacheContent`: from the top of the list down, so oldest key first. */
    method CacheContent() returns (entries: seq<string>)
      requires Valid()
      ensures |entries| == |Model().keys|
      ensures forall i :: 0 <= i < |entries| ==> entries[i] == Model().keys[|entries| - 1 - i]
    {
      entries := [];
      var ep: int := cacheSize - 1;
      while ep >= 0 && objCacheList[ep].Some?
        invariant cacheFree - 1 <= ep < cacheSize && |entries| == cacheSize - 1 - ep
        invariant forall i :: 0 <= i < |entries| ==> entries[i] == Model().keys[cacheSize - 1 - cacheFree - i]
      {
        entries := entries + [objCacheList[ep].value];
        ep := ep - 1;
      }
    }
  }
}
