# Sync message catalog

This project models the message catalog of the sync client: the names of
the messages that the sync webview and the browser process exchange. The
catalog is a JavaScript object whose 23 keys are message names such as
`GET_INIT_DATA`. Every value is the placeholder `null`. The module exports
the object built by `mapValuesByKeys`, which maps every key to its wire
name: the key lower-cased, with every `_` replaced by `-`
(`GET_INIT_DATA` ↦ `"get-init-data"`).

The model has two modules:

- `WireNames` (`wire_names.dfy`) is the per-key conversion
  `k.toLowerCase().replace(/_/g, '-')`. It is written as the source's two
  passes, `ToLowerCase` then `ReplaceUnderscores`, composed into
  `WireName`. Beside it sit an inverse, `KeyName`. Lemmas prove the two
  round trips, injectivity on the key alphabet `[A-Z_]`, and idempotence.
- `Messages` (`messages.dfy`) holds the table and the export.
  - `MessageKeys` is the table's keys in declaration order. `MessageTable`
    is the object itself, every key bound to `Null`.
  - `MapValuesByKeys` is the `reduce`, a loop that updates a map one key at
    a time. It is proved equal to the comprehension
    `map k | k in o.Keys && k != "__proto__" :: WireName(k)` for any order
    of `Object.keys(o)`.
  - `Export` is the value assigned to `module.exports`.

A JavaScript object is modelled as a `map<string, V>`. `Object.keys(o)` is
a parameter `keys`: a sequence whose elements are exactly the object's
keys. The result does not depend on the order of that sequence or on the
object's values, and `MapValuesByKeys`'s contract says so. One key is
special: the result starts as a plain `{}`, so assigning a string to
`newObject["__proto__"]` goes to the inherited `Object.prototype` setter,
which ignores it. An input with an own `__proto__` key (one made by
`JSON.parse`, for instance) therefore loses that key. The model drops it
too. None of the table's keys is `__proto__`, so the export keeps all 23.

The doc comments of the table describe a sync protocol: session
initialisation, fetching and resolving records, pushing records, bookmark
order, deletion and compaction. The source contains no code for any of
it: the table only names the messages. So the model covers the catalog
and its conversion, which is the code that exists.

## Model

| member | source | states |
|---|---|---|
| `WireNames.ToLowerCase` | client/constants/messages.js:7 | same length as the input; each upper-case ASCII letter becomes its lower-case letter and every other character is kept; no upper-case letter is left |
| `WireNames.ReplaceUnderscores` | client/constants/messages.js:7 | the replace is global: same length, every `_` becomes `-`, every other character is kept, no `_` is left |
| `WireNames.WireName` | client/constants/messages.js:7 | the wire name has the key's length; character `i` is character `i` of the key converted on its own; it contains no `_` and no upper-case letter |
| `WireNames.KeyName` | client/constants/messages.js:7 | the inverse mapping: same length, `-` becomes `_`, lower-case letters become upper-case |
| `WireNames.WireNameOfKeyName` | client/constants/messages.js:7 | a key over `[A-Z_]` becomes a wire name over `[a-z-]` |
| `WireNames.WireNameIdempotent` | client/constants/messages.js:7 | converting an already converted name changes nothing, for every string |
| `WireNames.WireNameRoundTrip` | client/constants/messages.js:7 | for every key over `[A-Z_]`, `KeyName` of its wire name gives the key back |
| `WireNames.KeyNameRoundTrip` | client/constants/messages.js:7 | for every wire name over `[a-z-]`, `KeyName` gives a key over `[A-Z_]` whose wire name is that wire name, so the conversion is a bijection between the two alphabets |
| `WireNames.WireNameInjective` | client/constants/messages.js:7 | two keys over `[A-Z_]` have the same wire name if and only if they are the same key |
| `WireNames.WireNameMergesOutsideKeyNames` | client/constants/messages.js:7 | outside the key alphabet the conversion is not injective: `SYNC_READY` and `sync-ready` share a wire name |
| `Messages.MapValuesByKeys` | client/constants/messages.js:5-9 | the result has the input object's keys except `__proto__`, whose assignment to a plain `{}` is dropped; it maps each key to its wire name; it equals the comprehension over the key set, whatever the enumeration order, and the input values are never read |
| `Messages.MessageKeysWellFormed` | client/constants/messages.js:12-149 | the table has 23 keys, all distinct, each over `[A-Z_]` |
| `Messages.MessageTableWellFormed` | client/constants/messages.js:12-149 | the table object has exactly the declared keys, 23 of them, all over `[A-Z_]`, and `__proto__` is not among them |
| `Messages.ExportedKeys` | client/constants/messages.js:151 | the result of the reduce over the table keeps all 23 keys of the table, since none of them is dropped as `__proto__` |
| `Messages.ExportedWireNamesDistinct` | client/constants/messages.js:151 | every exported value is over `[a-z-]` and no two messages share a wire name |
| `Messages.KnownKeysPresent` | client/constants/messages.js:18-30 | `GET_INIT_DATA` and `SYNC_DEBUG` are keys of the exported object |
| `Messages.GetInitDataEntry` | client/constants/messages.js:30 | in a catalog of wire names, `GET_INIT_DATA` maps to `get-init-data` |
| `Messages.SyncDebugEntry` | client/constants/messages.js:18 | in a catalog of wire names, `SYNC_DEBUG` maps to `sync-debug` |
| `Messages.Export` | client/constants/messages.js:151 | the exported object has the table's 23 keys, each mapped to its wire name over `[a-z-]`, with `GET_INIT_DATA` ↦ `get-init-data` and `SYNC_DEBUG` ↦ `sync-debug`; no two messages share a wire name, including `SEND_`/`SENT_SYNC_RECORDS`, `RESOLVE_`/`RESOLVED_SYNC_RECORDS`, `DELETE_`/`DELETED_SYNC_USER` and `COMPACT_`/`COMPACTED_SYNC_CATEGORY` |

## Left out

- The sync protocol described in the table's doc comments is not modelled. This covers session setup and the deviceIdV2 migration, the fetch/resolve/apply pipeline, conflict resolution, pushing records, bookmark order and deletion/compaction. The source has no code for it, only comments.
- The parameter lists in the `/* @param ... */` comments are not modelled; the code never reads them.
- `WireNames.ToLowerCase`: models ASCII case mapping only, not the full Unicode mapping of `String.prototype.toLowerCase`. Every key in the table is ASCII `[A-Z_]`.
- `Messages.MapValuesByKeys`: the result is a `map`, so it does not record the insertion order of the JavaScript object's properties.
- `Messages.Export`: `module.exports` and the CommonJS module system are not modelled; `Export` returns the value that is exported.
- Message transport between the webview and the browser process is outside this code and is not modelled.
