/** The `application/x-www-form-urlencoded` serializer that `URLSearchParams`
    applies when it is turned into a string (WHATWG URL Standard, section 5.2),
    and the splitting half of the parser on the client. */
module FormUrlEncoded {
  import opened Wrappers

  /** Code points the serializer leaves as they are. */
  predicate Unreserved(c: char) {
    ('a' <= c <= 'z') || ('A' <= c <= 'Z') || ('0' <= c <= '9') || c == '*' || c == '-' || c == '.' || c == '_'
  }

  /** A value that needs no escaping, such as the statuses "draft" and "published". */
  predicate PlainWord(s: string) {
    forall i :: 0 <= i < |s| ==> Unreserved(s[i])
  }

  /** The characters that structure a URL's query: they end a pair, a name,
      the path or the query. */
  predicate Delimiter(c: char) {
    c == '&' || c == '=' || c == '?' || c == '#'
  }

  predicate FreeOfDelimiters(s: string) {
    forall i :: 0 <= i < |s| ==> !Delimiter(s[i])
  }

  function HexDigit(d: int): (c: char)
    requires 0 <= d < 16
    ensures c == "0123456789ABCDEF"[d]
    ensures !Delimiter(c)
  {
    if d < 10 then ('0' as int + d) as char else ('A' as int + d - 10) as char
  }

  predicate IsByte(b: int) {
    0 <= b < 256
  }

  /** The UTF-8 encoding of one code point: one byte below U+0080, two below
      U+0800, three below U+10000 and four above; the lead byte announces the
      length and every other byte is a continuation byte `10xxxxxx`. */
  function Utf8(c: char): (bytes: seq<int>)
    ensures 1 <= |bytes| <= 4
    ensures forall i :: 0 <= i < |bytes| ==> IsByte(bytes[i])
    ensures |bytes| == 1 <==> c as int < 0x80
    ensures |bytes| == 2 <==> 0x80 <= c as int < 0x800
    ensures |bytes| == 3 <==> 0x800 <= c as int < 0x10000
    ensures |bytes| == 1 ==> bytes[0] == c as int
    ensures |bytes| == 2 ==> 0xC0 <= bytes[0] < 0xE0
    ensures |bytes| == 3 ==> 0xE0 <= bytes[0] < 0xF0
    ensures |bytes| == 4 ==> 0xF0 <= bytes[0] < 0xF8
    ensures forall i :: 1 <= i < |bytes| ==> 0x80 <= bytes[i] < 0xC0
  {
    var cp := c as int;
    if cp < 0x80 then [cp]
    else if cp < 0x800 then [0xC0 + cp / 0x40, 0x80 + cp % 0x40]
    else if cp < 0x10000 then [0xE0 + cp / 0x1000, 0x80 + (cp / 0x40) % 0x40, 0x80 + cp % 0x40]
    else [0xF0 + cp / 0x40000, 0x80 + (cp / 0x1000) % 0x40, 0x80 + (cp / 0x40) % 0x40, 0x80 + cp % 0x40]
  }

  /** Reads the code point back from its UTF-8 bytes. */
  function Utf8Value(bytes: seq<int>): int
    requires 1 <= |bytes| <= 4
  {
    if |bytes| == 1 then bytes[0]
    else if |bytes| == 2 then (bytes[0] - 0xC0) * 0x40 + (bytes[1] - 0x80)
    else if |bytes| == 3 then (bytes[0] - 0xE0) * 0x1000 + (bytes[1] - 0x80) * 0x40 + (bytes[2] - 0x80)
    else (bytes[0] - 0xF0) * 0x40000 + (bytes[1] - 0x80) * 0x1000 + (bytes[2] - 0x80) * 0x40 + (bytes[3] - 0x80)
  }

  /** The encoding loses nothing: the bytes give the code point back. */
  lemma Utf8RoundTrip(c: char)
    ensures Utf8Value(Utf8(c)) == c as int
  {
    var cp := c as int;
    if cp >= 0x10000 {
      assert cp == (cp / 0x40000) * 0x40000 + ((cp / 0x1000) % 0x40) * 0x1000 + ((cp / 0x40) % 0x40) * 0x40 + cp % 0x40;
    } else if cp >= 0x800 {
      assert cp == (cp / 0x1000) * 0x1000 + ((cp / 0x40) % 0x40) * 0x40 + cp % 0x40;
    }
  }

  /** `%XX` for one byte: its two hexadecimal digits, upper case, high first. */
  function Escape(b: int): (e: string)
    requires IsByte(b)
    ensures e == ['%', "0123456789ABCDEF"[b / 16], "0123456789ABCDEF"[b % 16]]
  {
    ['%', HexDigit(b / 16), HexDigit(b % 16)]
  }

  /** `%XX` for every byte, with upper-case hexadecimal digits. */
  function PercentBytes(bytes: seq<int>): (s: string)
    requires forall i :: 0 <= i < |bytes| ==> IsByte(bytes[i])
    ensures |s| == 3 * |bytes|
    ensures forall i :: 0 <= i < |bytes| ==> s[3 * i..3 * i + 3] == Escape(bytes[i])
    ensures FreeOfDelimiters(s)
  {
    if bytes == [] then ""
    else
      assert IsByte(bytes[0]);
      var rest := PercentBytes(bytes[1..]);
      var s := Escape(bytes[0]) + rest;
      assert forall i :: 1 <= i < |bytes| ==>
        (s[3 * i..3 * i + 3] == rest[3 * (i - 1)..3 * (i - 1) + 3] && bytes[i] == bytes[1..][i - 1]);
      s
  }

  /** One code point: an unreserved one stays, a space becomes `+`, and any
      other becomes the `%XX` escapes of its UTF-8 bytes. */
  function EncodeChar(c: char): (e: string)
    ensures 1 <= |e| <= 12
    ensures Unreserved(c) ==> e == [c]
    ensures c == ' ' ==> e == "+"
    ensures !Unreserved(c) && c != ' ' ==> e == PercentBytes(Utf8(c))
  {
    if Unreserved(c) then [c]
    else if c == ' ' then "+"
    else PercentBytes(Utf8(c))
  }

  /** The serialization of one name or value: every code point becomes one
      character or up to four `%XX` escapes. */
  function Encode(s: string): (e: string)
    ensures |s| <= |e| <= 12 * |s|
  {
    if s == "" then "" else EncodeChar(s[0]) + Encode(s[1..])
  }

  /** The serialization works code point by code point. */
  lemma {:induction false} EncodeConcat(a: string, b: string)
    ensures Encode(a + b) == Encode(a) + Encode(b)
  {
    if a != "" {
      assert (a + b)[0] == a[0];
      assert (a + b)[1..] == a[1..] + b;
      EncodeConcat(a[1..], b);
    } else {
      assert a + b == b;
    }
  }

  /** A plain word is its own serialization. */
  lemma {:induction false} EncodePlainWord(s: string)
    requires PlainWord(s)
    ensures Encode(s) == s
  {
    if s != "" {
      assert PlainWord(s[1..]) by {
        forall i | 0 <= i < |s[1..]| ensures Unreserved(s[1..][i]) { assert s[1..][i] == s[i + 1]; }
      }
      EncodePlainWord(s[1..]);
      assert s == [s[0]] + s[1..];
    }
  }

  lemma EncodeCharFreeOfDelimiters(c: char)
    ensures FreeOfDelimiters(EncodeChar(c))
  {
  }

  lemma FreeOfDelimitersConcat(a: string, b: string)
    requires FreeOfDelimiters(a) && FreeOfDelimiters(b)
    ensures FreeOfDelimiters(a + b)
  {
    forall i | 0 <= i < |a + b| ensures !Delimiter((a + b)[i]) {
      if i >= |a| { assert (a + b)[i] == b[i - |a|]; }
    }
  }

  /** Whatever a value holds, its serialization cannot end a pair, start a
      new one or end the query: no value can smuggle in another parameter. */
  lemma {:induction false} EncodeFreeOfDelimiters(s: string)
    ensures FreeOfDelimiters(Encode(s))
  {
    if s != "" {
      EncodeFreeOfDelimiters(s[1..]);
      var head, tail := EncodeChar(s[0]), Encode(s[1..]);
      EncodeCharFreeOfDelimiters(s[0]);
      FreeOfDelimitersConcat(head, tail);
    }
  }

  function SerializePair(p: (string, string)): string {
    Encode(p.0) + "=" + Encode(p.1)
  }

  /** `URLSearchParams.toString()`: the encoded pairs joined by `&`. Whatever
      the pairs hold, the text can follow a `?` without opening a fragment
      or a second query. */
  function Serialize(ps: seq<(string, string)>): (q: string)
    decreases |ps|
    ensures NoQueryOrFragment(q)
  {
    if |ps| == 0 then ""
    else
      SerializePairNoQueryOrFragment(ps[0]);
      if |ps| == 1 then SerializePair(ps[0])
      else
        var rest := Serialize(ps[1..]);
        NoQueryOrFragmentConcat(SerializePair(ps[0]), "&");
        NoQueryOrFragmentConcat(SerializePair(ps[0]) + "&", rest);
        SerializePair(ps[0]) + "&" + rest
  }

  lemma SerializePairNoQueryOrFragment(p: (string, string))
    ensures NoQueryOrFragment(SerializePair(p))
  {
    EncodeFreeOfDelimiters(p.0);
    EncodeFreeOfDelimiters(p.1);
    NoQueryOrFragmentConcat(Encode(p.0), "=");
    NoQueryOrFragmentConcat(Encode(p.0) + "=", Encode(p.1));
  }

  lemma SerializeTwo(p: (string, string), q: (string, string))
    ensures Serialize([p, q]) == SerializePair(p) + "&" + SerializePair(q)
  {
    assert [p, q][1..] == [q];
  }

  lemma SerializePlainName(n: string, v: string)
    requires PlainWord(n)
    ensures SerializePair((n, v)) == n + "=" + Encode(v)
  {
    EncodePlainWord(n);
  }

  /** Two pairs whose names and first value need no escaping. */
  lemma SerializeTwoPlainNames(n1: string, v1: string, n2: string, v2: string)
    requires PlainWord(n1) && PlainWord(v1) && PlainWord(n2)
    ensures Serialize([(n1, v1), (n2, v2)]) == n1 + "=" + v1 + "&" + n2 + "=" + Encode(v2)
  {
    SerializeTwo((n1, v1), (n2, v2));
    SerializePlainName(n1, v1);
    EncodePlainWord(v1);
    SerializePlainName(n2, v2);
  }

  /** The first position of `c` in `s`, or `|s|` when there is none. */
  function IndexOf(s: string, c: char): (k: nat)
    ensures k <= |s|
    ensures k < |s| ==> s[k] == c
    ensures forall j :: 0 <= j < k ==> s[j] != c
  {
    if s == [] then 0
    else if s[0] == c then 0
    else 1 + IndexOf(s[1..], c)
  }

  /** `s` holds no `c`. */
  predicate Lacks(s: string, c: char) {
    forall i :: 0 <= i < |s| ==> s[i] != c
  }

  /** One `name=value` sequence of the query, split at its first `=`: the name
      holds no `=`, and neither part holds a character the sequence lacks. */
  function SplitPair(seg: string): (r: (string, string))
    ensures Lacks(r.0, '=')
    ensures forall c :: Lacks(seg, c) ==> Lacks(r.0, c) && Lacks(r.1, c)
    ensures Lacks(seg, '=') ==> r == (seg, "")
    ensures !Lacks(seg, '=') ==> seg == r.0 + "=" + r.1
  {
    var k := IndexOf(seg, '=');
    assert Lacks(seg, '=') ==> k == |seg| && seg[..k] == seg;
    (seg[..k], if k < |seg| then seg[k + 1..] else "")
  }

  /** The splitting half of the query parser the client uses: the query is cut
      at every `&`, empty pieces are skipped, each piece is cut at its first
      `=`. Replacing `+` and decoding percent-escapes are not modelled; on
      plain words they change nothing. */
  function ParseQuery(q: string): (ps: seq<(string, string)>)
    decreases |q|
    ensures |ps| <= |q|
    ensures forall i :: 0 <= i < |ps| ==> Lacks(ps[i].0, '&') && Lacks(ps[i].1, '&') && Lacks(ps[i].0, '=')
  {
    if q == "" then []
    else
      var k := IndexOf(q, '&');
      (if k == 0 then [] else [SplitPair(q[..k])]) + ParseQuery(if k < |q| then q[k + 1..] else "")
  }

  /** `URLSearchParams.get(name)`: the value of the first pair with that name, `null` when none. */
  function Lookup(ps: seq<(string, string)>, name: string): (r: Option<string>)
    ensures r.Some? <==> exists i :: 0 <= i < |ps| && ps[i].0 == name
    ensures r.Some? ==>
      exists i :: (0 <= i < |ps| && ps[i].0 == name && r.value == ps[i].1 &&
                   forall j :: 0 <= j < i ==> ps[j].0 != name)
  {
    if ps == [] then None
    else if ps[0].0 == name then Some(ps[0].1)
    else
      var r := Lookup(ps[1..], name);
      assert forall i :: 1 <= i < |ps| ==> ps[i] == ps[1..][i - 1];
      r
  }

  /** The query of a URL: the fragment, from the first `#`, is cut off; the
      query is what follows the first `?` before it, and empty without one. */
  function SearchOf(url: string): (r: string)
    ensures Lacks(r, '#')
    ensures IndexOf(url, '?') >= IndexOf(url, '#') ==> r == ""
    ensures IndexOf(url, '?') < IndexOf(url, '#') ==> r == url[IndexOf(url, '?') + 1..IndexOf(url, '#')]
  {
    var beforeFragment := url[..IndexOf(url, '#')];
    var q := IndexOf(beforeFragment, '?');
    if q == |beforeFragment| then ""
    else beforeFragment[q + 1..]
  }

  function EncodedPairs(ps: seq<(string, string)>): (es: seq<(string, string)>)
    ensures |es| == |ps|
  {
    seq(|ps|, i requires 0 <= i < |ps| => (Encode(ps[i].0), Encode(ps[i].1)))
  }

  lemma IndexOfAfterFree(a: string, c: char, b: string)
    requires forall i :: 0 <= i < |a| ==> a[i] != c
    ensures IndexOf(a + [c] + b, c) == |a|
  {
    if a != [] {
      assert (a + [c] + b)[1..] == a[1..] + [c] + b;
      IndexOfAfterFree(a[1..], c, b);
    }
  }

  lemma IndexOfAbsent(a: string, c: char)
    requires forall i :: 0 <= i < |a| ==> a[i] != c
    ensures IndexOf(a, c) == |a|
  {
    if a != [] {
      assert forall i :: 0 <= i < |a[1..]| ==> a[1..][i] == a[i + 1];
      IndexOfAbsent(a[1..], c);
    }
  }

  lemma SplitSerializedPair(p: (string, string))
    ensures SplitPair(SerializePair(p)) == (Encode(p.0), Encode(p.1))
  {
    var n, v := Encode(p.0), Encode(p.1);
    EncodeFreeOfDelimiters(p.0);
    IndexOfAfterFree(n, '=', v);
    assert SerializePair(p) == n + ['='] + v;
    assert (n + ['='] + v)[..|n|] == n;
    assert (n + ['='] + v)[|n| + 1..] == v;
  }

  /** A serialized pair holds no `&` and is never empty. */
  lemma SerializedPairShape(p: (string, string))
    ensures forall i :: 0 <= i < |SerializePair(p)| ==> SerializePair(p)[i] != '&'
    ensures |SerializePair(p)| > 0
  {
    var n, v := Encode(p.0), Encode(p.1);
    EncodeFreeOfDelimiters(p.0);
    EncodeFreeOfDelimiters(p.1);
    forall i | 0 <= i < |n + "=" + v| ensures (n + "=" + v)[i] != '&' {
      if i < |n| { assert (n + "=" + v)[i] == n[i]; }
      else if i > |n| { assert (n + "=" + v)[i] == v[i - |n| - 1]; }
    }
  }

  lemma ParseLastSegment(seg: string)
    requires seg != "" && forall i :: 0 <= i < |seg| ==> seg[i] != '&'
    ensures ParseQuery(seg) == [SplitPair(seg)]
  {
    IndexOfAbsent(seg, '&');
    assert seg[..|seg|] == seg;
  }

  lemma ParseFirstSegment(seg: string, rest: string)
    requires seg != "" && forall i :: 0 <= i < |seg| ==> seg[i] != '&'
    ensures ParseQuery(seg + "&" + rest) == [SplitPair(seg)] + ParseQuery(rest)
  {
    IndexOfAfterFree(seg, '&', rest);
    var q := seg + "&" + rest;
    assert q[..|seg|] == seg;
    assert q[|seg| + 1..] == rest;
  }

  /** A serialized pair on its own parses back into the encoded pair. */
  lemma ParseSerializedPair(p: (string, string))
    ensures ParseQuery(SerializePair(p)) == [(Encode(p.0), Encode(p.1))]
  {
    SerializedPairShape(p);
    SplitSerializedPair(p);
    ParseLastSegment(SerializePair(p));
  }

  /** A serialized pair followed by `&` parses into the encoded pair first. */
  lemma ParseSerializedPairThen(p: (string, string), rest: string)
    ensures ParseQuery(SerializePair(p) + "&" + rest) == [(Encode(p.0), Encode(p.1))] + ParseQuery(rest)
  {
    SerializedPairShape(p);
    SplitSerializedPair(p);
    ParseFirstSegment(SerializePair(p), rest);
  }

  /** Parsing what the serializer produced gives back the pairs, in order, as
      they were encoded. */
  lemma {:induction false} ParseSerialize(ps: seq<(string, string)>)
    ensures ParseQuery(Serialize(ps)) == EncodedPairs(ps)
    decreases |ps|
  {
    if |ps| == 1 {
      ParseSerializedPair(ps[0]);
    } else if |ps| > 1 {
      ParseSerializedPairThen(ps[0], Serialize(ps[1..]));
      ParseSerialize(ps[1..]);
      assert EncodedPairs(ps) == [EncodedPairs(ps)[0]] + EncodedPairs(ps[1..]);
    }
  }

  /** Text that neither opens a query nor a fragment. */
  predicate NoQueryOrFragment(s: string) {
    forall i :: 0 <= i < |s| ==> s[i] != '?' && s[i] != '#'
  }

  lemma NoQueryOrFragmentConcat(a: string, b: string)
    requires NoQueryOrFragment(a) && NoQueryOrFragment(b)
    ensures NoQueryOrFragment(a + b)
  {
    forall i | 0 <= i < |a + b| ensures (a + b)[i] != '?' && (a + b)[i] != '#' {
      if i >= |a| { assert (a + b)[i] == b[i - |a|]; }
    }
  }

  /** Only the empty value serializes to nothing. */
  lemma EncodeNonEmpty(s: string)
    requires s != ""
    ensures Encode(s) != ""
  {
    assert |EncodeChar(s[0])| > 0;
  }

  /** Two pairs whose names and first value need no escaping are parsed back
      with only the second value in its encoded form. */
  lemma EncodedPairsPlainNames(n1: string, v1: string, n2: string, v2: string)
    requires PlainWord(n1) && PlainWord(v1) && PlainWord(n2)
    ensures EncodedPairs([(n1, v1), (n2, v2)]) == [(n1, v1), (n2, Encode(v2))]
  {
    EncodePlainWord(n1);
    EncodePlainWord(v1);
    EncodePlainWord(n2);
  }

  /** Two pairs whose names and first value need no escaping survive
      serialization and parsing, with the second value in encoded form. */
  lemma ParseTwoPlainNames(n1: string, v1: string, n2: string, v2: string)
    requires PlainWord(n1) && PlainWord(v1) && PlainWord(n2)
    ensures ParseQuery(Serialize([(n1, v1), (n2, v2)])) == [(n1, v1), (n2, Encode(v2))]
  {
    ParseSerialize([(n1, v1), (n2, v2)]);
    EncodedPairsPlainNames(n1, v1, n2, v2);
  }

  /** The query of `prefix ? query` is `query` when the prefix opens no query
      or fragment of its own and the query holds no `#`. */
  lemma SearchOfComposed(prefix: string, query: string)
    requires forall i :: 0 <= i < |prefix| ==> prefix[i] != '?' && prefix[i] != '#'
    requires forall i :: 0 <= i < |query| ==> query[i] != '#'
    ensures SearchOf(prefix + "?" + query) == query
  {
    IndexOfAfterFree(prefix, '?', query);
    var url := prefix + "?" + query;
    assert url[|prefix| + 1..] == query;
    IndexOfAbsent(query, '#');
  }

  /** A `#` before any `?` leaves the URL without a query. */
  lemma SearchOfFragmentFirst(prefix: string, rest: string)
    requires NoQueryOrFragment(prefix)
    ensures SearchOf(prefix + "#" + rest) == ""
  {
    var url := prefix + "#" + rest;
    IndexOfAfterFree(prefix, '#', rest);
    assert forall j :: 0 <= j < |prefix| ==> url[j] == prefix[j];
  }
}
