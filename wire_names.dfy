/**
 The conversion from a message key to its wire name: the key is
 lower-cased and then every underscore is replaced by a hyphen, so that
 `GET_INIT_DATA` travels as `get-init-data`.

 Lower-casing is modelled on ASCII only; the message keys are made of
 the letters `A`-`Z` and `_`.
 */
module WireNames {

  predicate IsAsciiUpper(c: char) { 'A' <= c <= 'Z' }

  predicate IsAsciiLower(c: char) { 'a' <= c <= 'z' }

  /* The ASCII case mapping of `String.prototype.toLowerCase`. */
  function LowerChar(c: char): char
  {
    if IsAsciiUpper(c) then (c as int - 'A' as int + 'a' as int) as char else c
  }

  /* The ASCII case mapping of `String.prototype.toUpperCase`. */
  function UpperChar(c: char): char
  {
    if IsAsciiLower(c) then (c as int - 'a' as int + 'A' as int) as char else c
  }

  /* What one character of a key becomes on the wire. */
  function WireChar(c: char): char
  {
    if c == '_' then '-' else LowerChar(c)
  }

  /* The strings message keys are written in: upper-case letters and `_`. */
  predicate IsKeyName(s: string)
  {
    forall i :: 0 <= i < |s| ==> IsAsciiUpper(s[i]) || s[i] == '_'
  }

  /* The strings wire names are written in: lower-case letters and `-`. */
  predicate IsWireName(s: string)
  {
    forall i :: 0 <= i < |s| ==> IsAsciiLower(s[i]) || s[i] == '-'
  }

  /* `s.toLowerCase()`: every upper-case letter is replaced by its
     lower-case counterpart, every other character is kept. */
  function ToLowerCase(s: string): (r: string)
    ensures |r| == |s|
    ensures forall i :: 0 <= i < |s| ==> r[i] == LowerChar(s[i])
    ensures forall i :: 0 <= i < |r| ==> !IsAsciiUpper(r[i])
  {
    if s == [] then [] else [LowerChar(s[0])] + ToLowerCase(s[1..])
  }

  /* `s.replace(/_/g, '-')`: the regular expression is global, so every
     underscore becomes a hyphen, not only the first one. */
  function ReplaceUnderscores(s: string): (r: string)
    ensures |r| == |s|
    ensures forall i :: 0 <= i < |s| ==> r[i] == (if s[i] == '_' then '-' else s[i])
    ensures '_' !in r
  {
    if s == [] then []
    else [if s[0] == '_' then '-' else s[0]] + ReplaceUnderscores(s[1..])
  }

  /* The wire name of a message key: `k.toLowerCase().replace(/_/g, '-')`. */
  function WireName(key: string): (w: string)
    ensures |w| == |key|
    ensures forall i :: 0 <= i < |key| ==> w[i] == WireChar(key[i])
    ensures '_' !in w
    ensures forall i :: 0 <= i < |w| ==> !IsAsciiUpper(w[i])
  {
    ReplaceUnderscores(ToLowerCase(key))
  }

  /* The key a wire name came from: the inverse of WireName on key names. */
  function KeyName(wire: string): (k: string)
    ensures |k| == |wire|
    ensures forall i :: 0 <= i < |wire| ==>
              k[i] == (if wire[i] == '-' then '_' else UpperChar(wire[i]))
  {
    if wire == [] then []
    else [if wire[0] == '-' then '_' else UpperChar(wire[0])] + KeyName(wire[1..])
  }

  /* Every key name becomes a wire name. */
  lemma WireNameOfKeyName(key: string)
    requires IsKeyName(key)
    ensures IsWireName(WireName(key))
  {
  }

  /* Converting a converted name changes nothing. */
  lemma WireNameIdempotent(s: string)
    ensures WireName(WireName(s)) == WireName(s)
  {
  }

  /* KeyName undoes WireName on every key name. */
  lemma WireNameRoundTrip(key: string)
    requires IsKeyName(key)
    ensures KeyName(WireName(key)) == key
  {
  }

  /* WireName undoes KeyName on every wire name: each wire name belongs to
     exactly one key name. */
  lemma KeyNameRoundTrip(wire: string)
    requires IsWireName(wire)
    ensures IsKeyName(KeyName(wire))
    ensures WireName(KeyName(wire)) == wire
  {
  }

  /* Two key names share a wire name only when they are the same key. */
  lemma WireNameInjective(a: string, b: string)
    requires IsKeyName(a) && IsKeyName(b)
    ensures WireName(a) == WireName(b) <==> a == b
  {
  }

  /* Outside the key alphabet the conversion is not injective: lower-casing
     merges letters that differ only in case, and a hyphen already in the
     input collides with a converted underscore. */
  lemma WireNameMergesOutsideKeyNames()
    ensures WireName("SYNC_READY") == WireName("sync-ready")
    ensures !IsKeyName("sync-ready")
  {
    assert "sync-ready"[0] == 's';
  }
}
