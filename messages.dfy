/**
 The catalog of messages exchanged between the sync webview and the
 browser process. The catalog is written as an object whose keys are the
 message names and whose values are all null; the module exports the
 object that maps every key to its wire name.
 */
module Messages {
  import opened WireNames

  /* The `_ = null` placeholder every key of the table is bound to. */
  datatype Null = Null

  /* The keys of the message table, in declaration order. */
  const MessageKeys: seq<string> := [
    "SYNC_DEBUG",
    "SYNC_SETUP_ERROR",
    "GET_INIT_DATA",
    "GOT_INIT_DATA",
    "SAVE_INIT_DATA",
    "SYNC_READY",
    "FETCH_SYNC_RECORDS",
    "FETCH_SYNC_DEVICES",
    "GET_EXISTING_OBJECTS",
    "RESOLVE_SYNC_RECORDS",
    "RESOLVED_SYNC_RECORDS",
    "SEND_SYNC_RECORDS",
    "SENT_SYNC_RECORDS",
    "DELETE_SYNC_USER",
    "DELETED_SYNC_USER",
    "DELETE_SYNC_CATEGORY",
    "COMPACT_SYNC_CATEGORY",
    "COMPACTED_SYNC_CATEGORY",
    "DELETE_SYNC_SITE_SETTINGS",
    "GET_BOOKMARKS_BASE_ORDER",
    "SAVE_BOOKMARKS_BASE_ORDER",
    "GET_BOOKMARK_ORDER",
    "SAVE_BOOKMARK_ORDER"
  ]

  /* The message table itself: every key bound to null. */
  const MessageTable: map<string, Null> := map k | k in MessageKeys :: Null

  /* The one key that an assignment to a plain `{}` does not create: writing
     a string to `newObject["__proto__"]` goes to the `Object.prototype`
     setter, which ignores values that are neither objects nor null. */
  const ProtoKey: string := "__proto__"

  /* The object mapValuesByKeys should produce for an object with the
     given keys: each key other than `__proto__` bound to its wire name. */
  ghost function WireNameMap(keys: set<string>): map<string, string>
  {
    map k | k in keys && k != ProtoKey :: WireName(k)
  }

  /* No key occurs twice in the sequence. */
  predicate Distinct(s: seq<string>)
  {
    forall i, j :: 0 <= i < j < |s| ==> s[i] != s[j]
  }

  /* `mapValuesByKeys(o)`: a reduce over `Object.keys(o)` that assigns
     `newObject[k]` for each key in turn. `keys` is that enumeration of the
     object's own keys, in whatever order it comes; the values of `o` are
     never read. An own `__proto__` key of `o` is enumerated but its
     assignment is silently dropped, so it is missing from the result. */
  method MapValuesByKeys<V>(o: map<string, V>, keys: seq<string>) returns (newObject: map<string, string>)
    requires forall k :: k in keys <==> k in o
    ensures newObject.Keys == o.Keys - {ProtoKey}
    ensures forall k :: k in newObject ==> newObject[k] == WireName(k)
    ensures newObject == WireNameMap(o.Keys)
  {
    newObject := map[];
    var i := 0;
    while i < |keys|
      invariant 0 <= i <= |keys|
      invariant forall k :: k in newObject <==> k in keys[..i] && k != ProtoKey
      invariant forall k :: k in newObject ==> newObject[k] == WireName(k)
    {
      var k := keys[i];
      if k != ProtoKey {
        newObject := newObject[k := WireName(k)];
      }
      assert keys[..i + 1] == keys[..i] + [k];
      i := i + 1;
    }
    assert keys[..i] == keys;
  }

  /* The table's keys are distinct key names, and there are 23 of them. */
  lemma MessageKeysWellFormed()
    ensures |MessageKeys| == 23
    ensures forall i :: 0 <= i < |MessageKeys| ==> IsKeyName(MessageKeys[i])
    ensures Distinct(MessageKeys)
  {
    SetupKeysAreKeyNames();
    FetchKeysAreKeyNames();
    ResolveAndSendKeysAreKeyNames();
    DeletionKeysAreKeyNames();
    CompactionKeysAreKeyNames();
    BaseOrderKeysAreKeyNames();
    BookmarkOrderKeysAreKeyNames();
  }

  // The alphabet check on the literal keys, one group of the table at a
  // time so that each proof stays small.

  lemma SetupKeysAreKeyNames()
    ensures forall i :: 0 <= i < 6 ==> IsKeyName(MessageKeys[i])
  {
  }

  lemma FetchKeysAreKeyNames()
    ensures forall i :: 6 <= i < 9 ==> IsKeyName(MessageKeys[i])
  {
  }

  lemma ResolveAndSendKeysAreKeyNames()
    ensures forall i :: 9 <= i < 13 ==> IsKeyName(MessageKeys[i])
  {
  }

  lemma DeletionKeysAreKeyNames()
    ensures forall i :: 13 <= i < 16 ==> IsKeyName(MessageKeys[i])
  {
  }

  lemma CompactionKeysAreKeyNames()
    ensures forall i :: 16 <= i < 19 ==> IsKeyName(MessageKeys[i])
  {
  }

  lemma BaseOrderKeysAreKeyNames()
    ensures forall i :: 19 <= i < 21 ==> IsKeyName(MessageKeys[i])
  {
  }

  lemma BookmarkOrderKeysAreKeyNames()
    ensures forall i :: 21 <= i < 23 ==> IsKeyName(MessageKeys[i])
  {
  }

  // Two wire names of the catalog spelled out. The keys are parameters
  // rather than literals so that the proofs work from WireName's contract
  // instead of unfolding the conversion letter by letter.

  lemma GetInitDataWireName(key: string)
    requires key == "GET_INIT_DATA"
    ensures WireName(key) == "get-init-data"
  {
  }

  lemma SyncDebugWireName(key: string)
    requires key == "SYNC_DEBUG"
    ensures WireName(key) == "sync-debug"
  {
  }

  /* A sequence without repetitions has as many distinct elements as it
     has positions. */
  lemma {:induction false} DistinctCardinality(s: seq<string>)
    requires Distinct(s)
    ensures |set k | k in s| == |s|
  {
    if s != [] {
      var rest := s[1..];
      assert Distinct(rest) by {
        forall i, j | 0 <= i < j < |rest| ensures rest[i] != rest[j] {
          assert rest[i] == s[i + 1] && rest[j] == s[j + 1];
        }
      }
      DistinctCardinality(rest);
      assert s[0] !in rest by {
        forall i | 0 <= i < |rest| ensures rest[i] != s[0] {
          assert rest[i] == s[i + 1];
        }
      }
      assert (set k | k in s) == {s[0]} + (set k | k in rest) by {
        assert s == [s[0]] + rest;
      }
    }
  }

  /* The message table has the 23 keys of the catalog, all of them key
     names. */
  lemma MessageTableWellFormed()
    ensures MessageTable.Keys == set k | k in MessageKeys
    ensures |MessageTable| == 23
    ensures forall k :: k in MessageTable ==> IsKeyName(k)
    ensures forall i :: 0 <= i < |MessageKeys| ==> MessageKeys[i] in MessageTable
    ensures ProtoKey !in MessageTable && MessageTable.Keys - {ProtoKey} == MessageTable.Keys
  {
    MessageKeysWellFormed();
    assert !IsKeyName(ProtoKey) by {
      assert ProtoKey[2] == 'p';
    }
    DistinctCardinality(MessageKeys);
    assert MessageTable.Keys == set k | k in MessageKeys;
  }

  /* What mapValuesByKeys returns for the message table, as stated by its
     contract: the keys of the table other than `__proto__`, each bound to
     its wire name. */
  ghost predicate IsExportOf(exported: map<string, string>)
  {
    && exported.Keys == MessageTable.Keys - {ProtoKey}
    && forall k :: k in exported ==> exported[k] == WireName(k)
  }

  /* The exported catalog has exactly the 23 keys of the table: none of
     them is `__proto__`, so none is dropped. */
  lemma ExportedKeys(exported: map<string, string>)
    requires IsExportOf(exported)
    ensures exported.Keys == MessageTable.Keys && |exported| == 23
    ensures forall i :: 0 <= i < |MessageKeys| ==> MessageKeys[i] in exported
  {
    MessageTableWellFormed();
  }

  /* Every exported value is a wire name, and no two messages share one. */
  lemma ExportedWireNamesDistinct(exported: map<string, string>)
    requires IsExportOf(exported)
    ensures forall k :: k in exported ==> IsWireName(exported[k])
    ensures forall a, b :: a in exported && b in exported && a != b ==> exported[a] != exported[b]
  {
    MessageTableWellFormed();
    forall k | k in exported ensures IsWireName(exported[k]) {
      WireNameOfKeyName(k);
    }
    forall a, b | a in exported && b in exported && a != b ensures exported[a] != exported[b] {
      WireNameInjective(a, b);
    }
  }

  /* Two keys of the table, found by their place in it. */
  lemma KnownKeysPresent(exported: map<string, string>)
    requires forall i :: 0 <= i < |MessageKeys| ==> MessageKeys[i] in exported
    ensures "GET_INIT_DATA" in exported && "SYNC_DEBUG" in exported
  {
    assert MessageKeys[2] in exported && MessageKeys[0] in exported;
  }

  /* The value a catalog of wire names holds for `GET_INIT_DATA`. */
  lemma GetInitDataEntry(exported: map<string, string>)
    requires forall k :: k in exported ==> exported[k] == WireName(k)
    ensures "GET_INIT_DATA" in exported ==> exported["GET_INIT_DATA"] == "get-init-data"
  {
    GetInitDataWireName("GET_INIT_DATA");
  }

  /* The value a catalog of wire names holds for `SYNC_DEBUG`. */
  lemma SyncDebugEntry(exported: map<string, string>)
    requires forall k :: k in exported ==> exported[k] == WireName(k)
    ensures "SYNC_DEBUG" in exported ==> exported["SYNC_DEBUG"] == "sync-debug"
  {
    SyncDebugWireName("SYNC_DEBUG");
  }

  /* `module.exports = mapValuesByKeys(messages)`: the exported catalog has
     exactly the 23 keys of the table, every value is the wire name of its
     key (`GET_INIT_DATA` is exported as `get-init-data`, `SYNC_DEBUG` as
     `sync-debug`), and no two messages share a wire name (not even the
     pairs of keys that differ in one letter, such as `SEND_SYNC_RECORDS`
     and `SENT_SYNC_RECORDS`). */
  method Export() returns (exported: map<string, string>)
    ensures exported.Keys == MessageTable.Keys && |exported| == 23
    ensures forall k :: k in exported ==> exported[k] == WireName(k) && IsWireName(exported[k])
    ensures forall a, b :: a in exported && b in exported && a != b ==> exported[a] != exported[b]
    ensures forall i :: 0 <= i < |MessageKeys| ==> MessageKeys[i] in exported
    ensures "GET_INIT_DATA" in exported && exported["GET_INIT_DATA"] == "get-init-data"
    ensures "SYNC_DEBUG" in exported && exported["SYNC_DEBUG"] == "sync-debug"
  {
    exported := MapValuesByKeys(MessageTable, MessageKeys);
    ExportedKeys(exported);
    ExportedWireNamesDistinct(exported);
    KnownKeysPresent(exported);
    GetInitDataEntry(exported);
    SyncDebugEntry(exported);
  }
}
