/**
 The `-h key=value` command-line flag: `headersValue.Set` splits its argument
 on `=`, accepts it only when that gives exactly two pieces, and appends the
 value to the key's list in the request header. Both command-line versions
 carry the same method (only the receiver's name differs), modelled once.
 */
module HeaderValue {
  import opened Wrappers

  /** An HTTP header: each key with its values in the order they were added. */
  type Header = map<string, seq<string>>

  const BadHeaderArgument := "Bad header argument"

  /** How many times `c` occurs in `s`. */
  function Occurrences(s: string, c: char): nat
  {
    if s == [] then 0 else (if s[0] == c then 1 else 0) + Occurrences(s[1..], c)
  }

  /** Go's `strings.Join` with a one-character separator. */
  function Join(parts: seq<string>, sep: char): string
    requires |parts| >= 1
  {
    if |parts| == 1 then parts[0] else parts[0] + [sep] + Join(parts[1..], sep)
  }

  /**
   Go's `strings.Split` with a one-character separator: the pieces between
   the separators, one more piece than there are separators, and joining
   them back gives the input.
   */
  function Split(s: string, sep: char): (parts: seq<string>)
    ensures |parts| == Occurrences(s, sep) + 1
    ensures forall p :: p in parts ==> sep !in p
    ensures Join(parts, sep) == s
  {
    if s == [] then [""]
    else
      var rest := Split(s[1..], sep);
      if s[0] == sep then
        assert ([""] + rest)[1..] == rest;
        [""] + rest
      else
        var parts := [[s[0]] + rest[0]] + rest[1..];
        assert parts[1..] == rest[1..];
        assert s == [s[0]] + s[1..];
        parts
  }

  /** In `key + [sep] + rest` with no `sep` in `key`, the first `sep` sits right after `key`. */
  lemma FirstSeparator(key: string, rest: string, sep: char)
    requires sep !in key
    ensures (key + [sep] + rest)[|key|] == sep
    ensures forall i :: 0 <= i < |key| ==> (key + [sep] + rest)[i] != sep
  {
    forall i | 0 <= i < |key|
      ensures (key + [sep] + rest)[i] != sep
    {
      assert (key + [sep] + rest)[i] == key[i];
    }
  }

  /**
   A string holding exactly one separator is determined by the pieces on
   either side of it.
   */
  lemma SeparatorIsUnique(key1: string, value1: string, key2: string, value2: string, sep: char)
    requires sep !in key1 && sep !in key2
    requires key1 + [sep] + value1 == key2 + [sep] + value2
    ensures key1 == key2 && value1 == value2
  {
    var s := key1 + [sep] + value1;
    FirstSeparator(key1, value1, sep);
    FirstSeparator(key2, value2, sep);
    assert |key1| == |key2| by {
      assert !(|key1| < |key2|) by {
        assert s[|key1|] == sep;
      }
      assert !(|key2| < |key1|) by {
        assert s[|key2|] == sep;
      }
    }
    assert key1 == s[..|key1|] == key2;
    assert value1 == s[|key1| + 1..] == value2;
  }

  /**
   The pure part of `Set`: split the argument on `=` and accept exactly two
   pieces, the key before the `=` and the value after it.
   */
  function ParseHeader(value: string): (r: Option<(string, string)>)
    ensures r.Some? <==> Occurrences(value, '=') == 1
    ensures r.Some? ==> '=' !in r.value.0 && '=' !in r.value.1
    ensures r.Some? ==> r.value.0 + "=" + r.value.1 == value
  {
    var arr := Split(value, '=');
    if |arr| != 2 then None
    else
      assert arr[1..] == [arr[1]];
      assert Join(arr, '=') == arr[0] + "=" + arr[1];
      Some((arr[0], arr[1]))
  }

  /** Occurrences add up over a concatenation. */
  lemma {:induction false} OccurrencesConcat(a: string, b: string, c: char)
    ensures Occurrences(a + b, c) == Occurrences(a, c) + Occurrences(b, c)
  {
    if a != [] {
      assert (a + b)[0] == a[0];
      assert (a + b)[1..] == a[1..] + b;
      OccurrencesConcat(a[1..], b, c);
    } else {
      assert a + b == b;
    }
  }

  /** A string holds no `c` exactly when `c` occurs in it zero times. */
  lemma {:induction false} OccurrencesAbsent(s: string, c: char)
    ensures Occurrences(s, c) == 0 <==> c !in s
  {
    if s != [] {
      OccurrencesAbsent(s[1..], c);
      assert s == [s[0]] + s[1..];
    }
  }

  /**
   Every `key=value` with no `=` in the key or the value is accepted, and
   gives back that very key and value, empty ones included.
   */
  lemma ParseHeaderAccepts(key: string, value: string)
    requires '=' !in key && '=' !in value
    ensures ParseHeader(key + "=" + value) == Some((key, value))
  {
    var s := key + "=" + value;
    OccurrencesConcat(key, "=", '=');
    OccurrencesConcat(key + "=", value, '=');
    OccurrencesAbsent(key, '=');
    OccurrencesAbsent(value, '=');
    assert Occurrences("=", '=') == 1 by {
      assert "="[1..] == "";
    }
    var arr := Split(s, '=');
    assert arr[1..] == [arr[1]];
    assert arr[0] in arr && arr[1] in arr;
    assert Join(arr[1..], '=') == arr[1];
    assert arr[0] + ['='] + arr[1] == s;
    SeparatorIsUnique(key, value, arr[0], arr[1], '=');
  }

  /** An argument with two `=` splits into three pieces and is rejected. */
  lemma ParseHeaderRejectsTwoSeparators()
    ensures ParseHeader("a=b=c") == None
  {
    assert Occurrences("a=b=c", '=') == 2 by {
      assert "a=b=c"[1..] == "=b=c";
      assert "=b=c"[1..] == "b=c";
      assert "b=c"[1..] == "=c";
      assert "=c"[1..] == "c";
      assert "c"[1..] == "";
    }
  }

  /** An empty key or an empty value is accepted as it stands. */
  lemma ParseHeaderAcceptsEmptyParts()
    ensures ParseHeader("=v") == Some(("", "v"))
    ensures ParseHeader("k=") == Some(("k", ""))
  {
    ParseHeaderAccepts("", "v");
    ParseHeaderAccepts("k", "");
  }

  /** The values of a key, empty when the key is absent. */
  function Values(h: Header, key: string): seq<string>
  {
    if key in h then h[key] else []
  }

  /**
   `http.Header.Add`: the value is appended to the key's list, the values
   already there are kept, and no other key changes.
   */
  function AddValue(h: Header, key: string, value: string): (r: Header)
    ensures r.Keys == h.Keys + {key}
    ensures Values(r, key) == Values(h, key) + [value]
    ensures forall k :: k != key ==> Values(r, k) == Values(h, k)
  {
    h[key := Values(h, key) + [value]]
  }

  /** The flag's value: the header that every `-h` argument is added to. */
  class HeadersValue {
    var header: Header

    /** The header starts empty before the flags are parsed. */
    constructor ()
      ensures header == map[]
    {
      header := map[];
    }

    /**
     `Set`: an argument without exactly one `=` is rejected with the source's
     error and leaves the header as it was; otherwise the value after the
     `=` is appended to the key before it.
     */
    method Set(value: string) returns (err: Option<string>)
      modifies this
      ensures err.None? <==> Occurrences(value, '=') == 1
      ensures err.Some? ==> err.value == BadHeaderArgument && header == old(header)
      ensures err.None? ==>
        && ParseHeader(value).Some?
        && header == AddValue(old(header), ParseHeader(value).value.0, ParseHeader(value).value.1)
    {
      var arr := ParseHeader(value);
      if arr.None? {
        return Some(BadHeaderArgument);
      }
      header := AddValue(header, arr.value.0, arr.value.1);
      return None;
    }
  }
}
