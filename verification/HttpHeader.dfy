/**
 Header fields: a multimap whose keys are compared in canonical form, so that token
 names differ only by more than ASCII case (RFC 7230, sections 3.2 and 3.2.6).
 */
module HttpHeader {

  predicate IsUpper(c: char) {
    'A' <= c <= 'Z'
  }

  predicate IsLower(c: char) {
    'a' <= c <= 'z'
  }

  function ToUpper(c: char): char {
    if IsLower(c) then (c as int - 32) as char else c
  }

  function ToLower(c: char): char {
    if IsUpper(c) then (c as int + 32) as char else c
  }

  /** A tchar of RFC 7230, section 3.2.6. */
  predicate IsTokenChar(c: char) {
    IsUpper(c) || IsLower(c) || '0' <= c <= '9'
    || c in {'!', '#', '$', '%', '&', '\'', '*', '+', '-', '.', '^', '_', '`', '|', '~'}
  }

  /** The same told by what is left out: visible ASCII characters other than the delimiters. */
  lemma TokenChars(c: char)
    ensures IsTokenChar(c)
       <==> 33 <= c as int <= 126
            && c !in {'"', '(', ')', ',', '/', ':', ';', '<', '=', '>', '?', '@', '[', '\\', ']', '{', '}'}
  {
  }

  /** Made of token characters only; the empty key is one too. */
  predicate IsToken(key: string) {
    forall c <- key :: IsTokenChar(c)
  }

  /** Upper case at the start if `upper`, and after each dash; lower case elsewhere. */
  function Cased(key: string, upper: bool): (r: string)
    ensures |r| == |key|
  {
    if key == "" then ""
    else [if upper then ToUpper(key[0]) else ToLower(key[0])] + Cased(key[1..], key[0] == '-')
  }

  function Canonical(key: string): string {
    if IsToken(key) then Cased(key, true) else key
  }

  lemma {:induction false} CasedEnd(key: string, n: nat, upper: bool)
    requires n < |key|
    ensures Cased(key[..n + 1], upper)
         == Cased(key[..n], upper)
            + [if (if n == 0 then upper else key[n - 1] == '-') then ToUpper(key[n]) else ToLower(key[n])]
  {
    if n == 0 {
      assert key[..1] == [key[0]] && key[..1][1..] == "";
    } else {
      assert key[..n + 1][1..] == key[1..][..n] && key[..n][1..] == key[1..][..n - 1];
      CasedEnd(key[1..], n - 1, key[0] == '-');
    }
  }

  /** Letter by letter: upper case at the start and after a dash, lower case elsewhere. */
  lemma {:induction false} CasedAt(key: string, upper: bool, i: nat)
    requires i < |key|
    ensures Cased(key, upper)[i]
         == if (if i == 0 then upper else key[i - 1] == '-') then ToUpper(key[i]) else ToLower(key[i])
  {
    if i > 0 {
      CasedAt(key[1..], key[0] == '-', i - 1);
    }
  }

  /** In a canonical key no small letter stands first or behind a dash, and no capital anywhere else; nothing but case has changed. */
  lemma CanonicalAt(key: string, i: nat)
    requires IsToken(key) && i < |key|
    ensures |Canonical(key)| == |key|
    ensures var c := Canonical(key)[i];
            if i == 0 || key[i - 1] == '-'
            then !('a' <= c <= 'z') && (c == key[i] || ('a' <= key[i] <= 'z' && c as int == key[i] as int - 32))
            else !('A' <= c <= 'Z') && (c == key[i] || ('A' <= key[i] <= 'Z' && c as int == key[i] as int + 32))
  {
    CasedAt(key, true, i);
  }

  /** gen_canonical_key: rewrites the key in place, one character at a time. */
  method GenCanonicalKey(key: string) returns (cKey: string)
    ensures cKey == Canonical(key)
  {
    for i := 0 to |key|
      invariant forall c <- key[..i] :: IsTokenChar(c)
    {
      assert key[i] in key && key[..i + 1] == key[..i] + [key[i]];
      if !IsTokenChar(key[i]) {
        return key;
      }
    }
    assert key[..|key|] == key;
    var upper := true;
    cKey := key;
    for i := 0 to |key|
      invariant |cKey| == |key| && cKey[i..] == key[i..]
      invariant cKey[..i] == Cased(key[..i], true)
      invariant upper <==> i == 0 || key[i - 1] == '-'
    {
      var c := cKey[i];
      assert c == cKey[i..][0] == key[i];
      if upper && IsLower(c) {
        c := ToUpper(c);
      } else if !upper && IsUpper(c) {
        c := ToLower(c);
      }
      CasedEnd(key, i, true);
      ghost var before := cKey;
      cKey := cKey[i := c];
      assert cKey[i + 1..] == before[i..][1..] && cKey[..i + 1] == before[..i] + [c];
      upper := c == '-';
    }
  }

  /** Equal up to ASCII case. */
  predicate EqualFold(a: string, b: string) {
    |a| == |b| && forall i :: 0 <= i < |a| ==> ToLower(a[i]) == ToLower(b[i])
  }

  /** Casing changes case only. */
  lemma {:induction false} CasedFolds(key: string, upper: bool)
    ensures EqualFold(Cased(key, upper), key)
    ensures IsToken(Cased(key, upper)) <==> IsToken(key)
  {
    if key != "" {
      var rest := Cased(key[1..], key[0] == '-');
      CasedFolds(key[1..], key[0] == '-');
      assert Cased(key, upper)[1..] == rest;
      assert forall c :: c in key <==> c == key[0] || c in key[1..];
      assert forall c :: c in Cased(key, upper) <==> c == Cased(key, upper)[0] || c in rest;
    }
  }

  /** Keys that differ in case only are cased alike. */
  lemma {:induction false} FoldsCased(a: string, b: string, upper: bool)
    requires EqualFold(a, b)
    ensures Cased(a, upper) == Cased(b, upper)
  {
    if a != "" {
      assert forall i :: 0 <= i < |a| - 1 ==> a[1..][i] == a[i + 1] && b[1..][i] == b[i + 1];
      assert ToUpper(a[0]) == ToUpper(b[0]) && (a[0] == '-' <==> b[0] == '-');
      FoldsCased(a[1..], b[1..], a[0] == '-');
    }
  }

  /** The same header name: the same token up to case, or the same text. */
  predicate SameName(a: string, b: string) {
    a == b || (IsToken(a) && IsToken(b) && EqualFold(a, b))
  }

  /** Two keys share a canonical form exactly if they are the same name. */
  lemma CanonicalSame(a: string, b: string)
    ensures Canonical(a) == Canonical(b) <==> SameName(a, b)
  {
    CasedFolds(a, true);
    CasedFolds(b, true);
    if IsToken(a) && IsToken(b) && EqualFold(a, b) {
      FoldsCased(a, b, true);
    }
  }

  /** A canonical key is its own canonical form. */
  lemma CanonicalIdempotent(key: string)
    ensures Canonical(Canonical(key)) == Canonical(key)
  {
    CasedFolds(key, true);
    CanonicalSame(Canonical(key), key);
  }

  // -------------------------------------------------------------- multimap

  type Fields = map<string, seq<string>>

  function Values(fields: Fields, key: string): seq<string> {
    if Canonical(key) in fields then fields[Canonical(key)] else []
  }

  datatype Change = Add(key: string, value: string) | Set(key: string, value: string) | Del(key: string)

  function Apply(fields: Fields, change: Change): Fields {
    match change
    case Add(key, value) => fields[Canonical(key) := Values(fields, key) + [value]]
    case Set(key, value) => fields[Canonical(key) := [value]]
    case Del(key) => fields - {Canonical(key)}
  }

  function After(changes: seq<Change>): Fields {
    if changes == [] then map[] else Apply(After(changes[..|changes| - 1]), changes[|changes| - 1])
  }

  /** The values a name should have: those added since it was last set, which counts, or deleted. */
  function Expected(changes: seq<Change>, key: string): seq<string> {
    if changes == [] then []
    else
      var earlier, last := changes[..|changes| - 1], changes[|changes| - 1];
      if !SameName(last.key, key) then Expected(earlier, key)
      else
        match last
        case Add(_, value) => Expected(earlier, key) + [value]
        case Set(_, value) => [value]
        case Del(_) => []
  }

  /** After any changes, under any spellings, a name has the values it should have, in order. */
  lemma {:induction false} HeaderIsMultimap(changes: seq<Change>, key: string)
    ensures Values(After(changes), key) == Expected(changes, key)
  {
    if changes != [] {
      var earlier, last := changes[..|changes| - 1], changes[|changes| - 1];
      HeaderIsMultimap(earlier, key);
      CanonicalSame(last.key, key);
      hide Canonical;
      hide SameName;
    }
  }

  class Header {
    var headerMap: Fields

    constructor ()
      ensures headerMap == After([])
    {
      headerMap := map[];
    }

    /** Appends to the values of the key, which are none if it is new. */
    method Add(key: string, value: string)
      modifies this
      ensures headerMap == Apply(old(headerMap), Change.Add(key, value))
    {
      var cKey := GenCanonicalKey(key);
      if cKey !in headerMap {
        headerMap := headerMap[cKey := []];
      }
      headerMap := headerMap[cKey := headerMap[cKey] + [value]];
    }

    method Del(key: string)
      modifies this
      ensures headerMap == Apply(old(headerMap), Change.Del(key))
    {
      var cKey := GenCanonicalKey(key);
      headerMap := headerMap - {cKey};
    }

    method Set(key: string, value: string)
      modifies this
      ensures headerMap == Apply(old(headerMap), Change.Set(key, value))
    {
      var cKey := GenCanonicalKey(key);
      headerMap := headerMap[cKey := [value]];
    }

    /** The first value of the key; empty if there is none. */
    method Get(key: string) returns (value: string)
      ensures value == if Values(headerMap, key) == [] then "" else Values(headerMap, key)[0]
    {
      var cKey := GenCanonicalKey(key);
      if cKey in headerMap {
        var v := headerMap[cKey];
        if v != [] {
          return v[0];
        }
      }
      return "";
    }

    method GetAllValues(key: string) returns (values: seq<string>)
      ensures values == Values(headerMap, key)
    {
      var cKey := GenCanonicalKey(key);
      return if cKey in headerMap then headerMap[cKey] else [];
    }
  }
}
