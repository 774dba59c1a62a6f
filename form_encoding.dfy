/**
 * `http_build_query` as the engine uses it: application/x-www-form-urlencoded
 * serialisation of the query map (section 5.2 of the WHATWG URL Standard, in
 * PHP's `urlencode` flavour), and its inverse on ASCII text.
 *
 * Text is Unicode; PHP holds it as UTF-8 bytes, which `urlencode` escapes one
 * byte at a time.
 */
module FormEncoding {
  import opened Wrappers
  import opened PhpStrings
  import opened PhpValues

  /** The characters `urlencode` leaves as they are. */
  predicate IsUnreserved(c: char)
  {
    ('a' <= c <= 'z') || ('A' <= c <= 'Z') || ('0' <= c <= '9') || c == '-' || c == '_' || c == '.'
  }

  predicate IsAscii(s: string)
  {
    forall k :: 0 <= k < |s| ==> s[k] as int < 128
  }

  function HexDigit(d: nat): (c: char)
    requires d < 16
    ensures IsUpperHex(c) && IsHex(c) && HexValue(c) == d
  {
    "0123456789ABCDEF"[d]
  }

  predicate IsHex(c: char)
  {
    ('0' <= c <= '9') || ('A' <= c <= 'F') || ('a' <= c <= 'f')
  }

  predicate IsUpperHex(c: char)
  {
    ('0' <= c <= '9') || ('A' <= c <= 'F')
  }

  function HexValue(c: char): nat
    requires IsHex(c)
  {
    if '0' <= c <= '9' then c as int - '0' as int
    else if 'A' <= c <= 'F' then c as int - 'A' as int + 10
    else c as int - 'a' as int + 10
  }

  /** The UTF-8 bytes of one character. */
  function Utf8(c: char): (bytes: seq<nat>)
    ensures 1 <= |bytes| <= 4
    ensures forall k :: 0 <= k < |bytes| ==> bytes[k] < 256
    ensures c as int < 128 ==> bytes == [c as int]
  {
    var n := c as int;
    if n < 0x80 then [n]
    else if n < 0x800 then [0xC0 + n / 64, 0x80 + n % 64]
    else if n < 0x10000 then [0xE0 + n / 4096, 0x80 + (n / 64) % 64, 0x80 + n % 64]
    else [0xF0 + n / 262144, 0x80 + (n / 4096) % 64, 0x80 + (n / 64) % 64, 0x80 + n % 64]
  }

  function PercentBytes(bytes: seq<nat>): string
    requires forall k :: 0 <= k < |bytes| ==> bytes[k] < 256
  {
    if bytes == [] then []
    else ['%', HexDigit(bytes[0] / 16), HexDigit(bytes[0] % 16)] + PercentBytes(bytes[1..])
  }

  /** Characters that can appear in the output of `urlencode`. */
  predicate IsEncodedChar(c: char)
  {
    IsUnreserved(c) || c == '+' || c == '%'
  }

  /** Every `%` starts an escape `%XX` with two upper-case hex digits. */
  predicate EscapesWellFormed(r: string)
  {
    forall k :: 0 <= k < |r| && r[k] == '%' ==> k + 2 < |r| && IsUpperHex(r[k + 1]) && IsUpperHex(r[k + 2])
  }

  lemma EncodedConcat(a: string, b: string)
    requires forall k :: 0 <= k < |a| ==> IsEncodedChar(a[k])
    requires forall k :: 0 <= k < |b| ==> IsEncodedChar(b[k])
    ensures forall k :: 0 <= k < |a + b| ==> IsEncodedChar((a + b)[k])
  {
    assert forall k :: |a| <= k < |a + b| ==> (a + b)[k] == b[k - |a|];
  }

  /** Encoded text holds neither of the query's separators. */
  lemma EncodedUnseparated(r: string)
    requires forall k :: 0 <= k < |r| ==> IsEncodedChar(r[k])
    ensures '&' !in r && '=' !in r
  {
  }

  lemma EscapesConcat(a: string, b: string)
    requires EscapesWellFormed(a) && EscapesWellFormed(b)
    ensures EscapesWellFormed(a + b)
  {
    var r := a + b;
    forall k | 0 <= k < |r| && r[k] == '%'
      ensures k + 2 < |r| && IsUpperHex(r[k + 1]) && IsUpperHex(r[k + 2])
    {
      if k < |a| {
        assert a[k] == '%';
        assert r[k + 1] == a[k + 1] && r[k + 2] == a[k + 2];
      } else {
        assert b[k - |a|] == '%';
        assert r[k + 1] == b[k - |a| + 1] && r[k + 2] == b[k - |a| + 2];
      }
    }
  }

  function EncodeChar(c: char): (r: string)
    ensures forall k :: 0 <= k < |r| ==> IsEncodedChar(r[k])
    ensures EscapesWellFormed(r)
  {
    if IsUnreserved(c) then [c]
    else if c == ' ' then "+"
    else PercentBytesEncoded(Utf8(c))
  }

  function PercentBytesEncoded(bytes: seq<nat>): (r: string)
    requires forall k :: 0 <= k < |bytes| ==> bytes[k] < 256
    ensures r == PercentBytes(bytes)
    ensures forall k :: 0 <= k < |r| ==> IsEncodedChar(r[k])
    ensures EscapesWellFormed(r)
  {
    if bytes == [] then []
    else
      var rest := PercentBytesEncoded(bytes[1..]);
      var escape := ['%', HexDigit(bytes[0] / 16), HexDigit(bytes[0] % 16)];
      var r := escape + rest;
      assert forall k :: 3 <= k < |r| ==> r[k] == rest[k - 3];
      EscapesConcat(escape, rest);
      r
  }

  /**
   * `urlencode`: letters, digits, `-`, `_` and `.` are kept, a space becomes
   * `+`, every other byte becomes `%XX` with upper-case hex digits.
   */
  function UrlEncode(s: string): (r: string)
    ensures forall k :: 0 <= k < |r| ==> IsEncodedChar(r[k])
    ensures EscapesWellFormed(r)
  {
    if s == [] then []
    else
      var head := EncodeChar(s[0]);
      var rest := UrlEncode(s[1..]);
      EncodedConcat(head, rest);
      EscapesConcat(head, rest);
      head + rest
  }

  /**
   * `urldecode`: `+` is a space and `%XX` the byte XX. A byte above 127 is
   * read back as the character with that code, so this inverts `urlencode`
   * on ASCII text only.
   */
  function UrlDecode(s: string): string
  {
    if s == [] then []
    else if s[0] == '+' then " " + UrlDecode(s[1..])
    else if s[0] == '%' && |s| >= 3 && IsHex(s[1]) && IsHex(s[2]) then
      [(HexValue(s[1]) * 16 + HexValue(s[2])) as char] + UrlDecode(s[3..])
    else [s[0]] + UrlDecode(s[1..])
  }

  /** An ASCII character outside the unreserved set and space is one escape. */
  lemma EncodeAsciiEscape(c: char)
    requires c as int < 128 && !IsUnreserved(c) && c != ' '
    ensures EncodeChar(c) == ['%', HexDigit(c as int / 16), HexDigit(c as int % 16)]
  {
    assert PercentBytes([c as int]) == ['%', HexDigit(c as int / 16), HexDigit(c as int % 16)] + PercentBytes([]);
  }

  lemma DecodeEscape(high: char, low: char, rest: string)
    requires IsHex(high) && IsHex(low)
    ensures UrlDecode(['%', high, low] + rest) == [(HexValue(high) * 16 + HexValue(low)) as char] + UrlDecode(rest)
  {
    var e := ['%', high, low] + rest;
    assert e[0] == '%' && e[1] == high && e[2] == low && e[3..] == rest;
  }

  lemma DecodeEncodedChar(c: char, rest: string)
    requires c as int < 128
    ensures UrlDecode(EncodeChar(c) + rest) == [c] + UrlDecode(rest)
  {
    var e := EncodeChar(c) + rest;
    if IsUnreserved(c) || c == ' ' {
      assert e[1..] == rest;
    } else {
      var n := c as int;
      EncodeAsciiEscape(c);
      DecodeEscape(HexDigit(n / 16), HexDigit(n % 16), rest);
      assert (HexValue(HexDigit(n / 16)) * 16 + HexValue(HexDigit(n % 16))) as char == c;
    }
  }

  /** Decoding what `urlencode` produced from ASCII text gives the text back. */
  lemma {:induction false} UrlDecodeEncode(s: string)
    requires IsAscii(s)
    ensures UrlDecode(UrlEncode(s)) == s
  {
    if s != [] {
      assert IsAscii(s[1..]);
      UrlDecodeEncode(s[1..]);
      DecodeEncodedChar(s[0], UrlEncode(s[1..]));
      assert [s[0]] + s[1..] == s;
    }
  }

  /** Text made only of unreserved characters is its own encoding. */
  lemma {:induction false} UrlEncodeUnreserved(s: string)
    requires forall k :: 0 <= k < |s| ==> IsUnreserved(s[k])
    ensures UrlEncode(s) == s
  {
    if s != [] {
      UrlEncodeUnreserved(s[1..]);
      assert [s[0]] + s[1..] == s;
    }
  }

  // ---- http_build_query ----

  /** The text http_build_query writes for a scalar value. */
  function ScalarText(v: Value): string
    requires !v.VArr? && !v.VNull?
  {
    match v
    case VBool(b) => if b then "1" else "0"
    case VInt(i) => IntToString(i)
    case VStr(s) => s
  }

  /**
   * The `name=value` pieces for one entry: null is skipped, a scalar gives
   * one piece, an array gives the pieces of its entries under `name[key]`.
   */
  function FieldPieces(name: string, v: Value): seq<string>
    decreases v, if v.VArr? then |v.entries| + 1 else 0
  {
    match v
    case VNull => []
    case VArr(_) => NestedPieces(name, v, 0)
    case _ => [name + "=" + UrlEncode(ScalarText(v))]
  }

  function NestedPieces(prefix: string, v: Value, i: nat): seq<string>
    requires v.VArr? && i <= |v.entries|
    decreases v, |v.entries| - i
  {
    if i == |v.entries| then []
    else
      FieldPieces(prefix + "%5B" + UrlEncode(v.entries[i].0) + "%5D", v.entries[i].1)
      + NestedPieces(prefix, v, i + 1)
  }

  function QueryPieces(query: Entries): seq<string>
  {
    if query == [] then []
    else FieldPieces(UrlEncode(query[0].0), query[0].1) + QueryPieces(query[1..])
  }

  function Join(pieces: seq<string>, sep: char): string
  {
    if pieces == [] then []
    else if |pieces| == 1 then pieces[0]
    else pieces[0] + [sep] + Join(pieces[1..], sep)
  }

  /** `http_build_query($query)` with the default `&` separator. */
  function HttpBuildQuery(query: Entries): string
  {
    Join(QueryPieces(query), '&')
  }

  // ---- the inverse: reading a flat query string back ----

  function Split(s: string, sep: char): (parts: seq<string>)
    ensures |parts| > 0
    decreases |s|
  {
    var k := FindFirst(s, c => c == sep);
    if k == |s| then [s] else [s[..k]] + Split(s[k + 1..], sep)
  }

  function DecodePair(piece: string): (string, string)
  {
    var k := FindFirst(piece, c => c == '=');
    if k == |piece| then (UrlDecode(piece), "")
    else (UrlDecode(piece[..k]), UrlDecode(piece[k + 1..]))
  }

  function DecodePairs(pieces: seq<string>): seq<(string, string)>
  {
    if pieces == [] then [] else [DecodePair(pieces[0])] + DecodePairs(pieces[1..])
  }

  /** Reads `k1=v1&k2=v2...` back into its decoded key/value pairs. */
  function ParseQuery(s: string): seq<(string, string)>
  {
    if s == [] then [] else DecodePairs(Split(s, '&'))
  }

  /** A query whose keys and values are ASCII text, numbers, booleans or null. */
  predicate IsFlatAscii(query: Entries)
  {
    forall k :: 0 <= k < |query| ==>
      IsAscii(query[k].0) && !query[k].1.VArr? &&
      (query[k].1.VStr? ==> IsAscii(query[k].1.s))
  }

  /** The decoded pairs a flat query stands for: null entries are dropped. */
  function TextPairs(query: Entries): seq<(string, string)>
    requires forall k :: 0 <= k < |query| ==> !query[k].1.VArr?
  {
    if query == [] then []
    else if query[0].1.VNull? then TextPairs(query[1..])
    else [(query[0].0, ScalarText(query[0].1))] + TextPairs(query[1..])
  }

  lemma {:induction false} SplitJoin(pieces: seq<string>, sep: char)
    requires pieces != []
    requires forall k :: 0 <= k < |pieces| ==> sep !in pieces[k]
    ensures Split(Join(pieces, sep), sep) == pieces
  {
    var s := Join(pieces, sep);
    var k := FindFirst(s, c => c == sep);
    if |pieces| > 1 {
      var p := pieces[0];
      assert s == p + [sep] + Join(pieces[1..], sep);
      assert s[|p|] == sep;
      assert k == |p|;
      assert s[..k] == p;
      assert s[k + 1..] == Join(pieces[1..], sep);
      SplitJoin(pieces[1..], sep);
    }
  }

  lemma AsciiIntToString(i: int)
    ensures IsAscii(IntToString(i))
  {
  }

  lemma DecodeEncodedPair(key: string, text: string)
    requires IsAscii(key) && IsAscii(text)
    ensures DecodePair(UrlEncode(key) + "=" + UrlEncode(text)) == (key, text)
  {
    var ek := UrlEncode(key);
    var piece := ek + "=" + UrlEncode(text);
    var k := FindFirst(piece, c => c == '=');
    assert piece[|ek|] == '=';
    assert k == |ek|;
    assert piece[..k] == ek;
    assert piece[k + 1..] == UrlEncode(text);
    UrlDecodeEncode(key);
    UrlDecodeEncode(text);
  }

  /** The pieces of one flat entry: none for null, else `urlencode(key)=urlencode(text)`. */
  lemma FlatEntryPieces(key: string, v: Value)
    requires !v.VArr?
    ensures FieldPieces(UrlEncode(key), v) ==
      if v.VNull? then [] else [UrlEncode(key) + "=" + UrlEncode(ScalarText(v))]
  {
  }

  /** The text pairs of a flat ASCII query are ASCII. */
  lemma {:induction false} FlatTextPairsAscii(query: Entries)
    requires IsFlatAscii(query)
    ensures forall k :: 0 <= k < |TextPairs(query)| ==>
      IsAscii(TextPairs(query)[k].0) && IsAscii(TextPairs(query)[k].1)
  {
    if query != [] {
      assert IsFlatAscii(query[1..]);
      FlatTextPairsAscii(query[1..]);
      if !query[0].1.VNull? {
        AsciiIntToString(if query[0].1.VInt? then query[0].1.i else 0);
      }
    }
  }

  /** Each piece of a flat query is `urlencode(key)=urlencode(text)`. */
  lemma {:induction false} FlatQueryPieces(query: Entries)
    requires IsFlatAscii(query)
    ensures |QueryPieces(query)| == |TextPairs(query)|
    ensures forall k :: 0 <= k < |QueryPieces(query)| ==>
      QueryPieces(query)[k] == UrlEncode(TextPairs(query)[k].0) + "=" + UrlEncode(TextPairs(query)[k].1)
  {
    if query != [] {
      assert IsFlatAscii(query[1..]);
      FlatQueryPieces(query[1..]);
      FlatEntryPieces(query[0].0, query[0].1);
      if !query[0].1.VNull? {
        var pair := (query[0].0, ScalarText(query[0].1));
        assert TextPairs(query) == [pair] + TextPairs(query[1..]);
        assert QueryPieces(query) == [UrlEncode(pair.0) + "=" + UrlEncode(pair.1)] + QueryPieces(query[1..]);
      }
    }
  }

  lemma {:induction false} DecodeEncodedPairs(pieces: seq<string>, pairs: seq<(string, string)>)
    requires |pieces| == |pairs|
    requires forall k :: 0 <= k < |pairs| ==> IsAscii(pairs[k].0) && IsAscii(pairs[k].1)
    requires forall k :: 0 <= k < |pieces| ==> pieces[k] == UrlEncode(pairs[k].0) + "=" + UrlEncode(pairs[k].1)
    ensures DecodePairs(pieces) == pairs
  {
    if pieces != [] {
      DecodeEncodedPair(pairs[0].0, pairs[0].1);
      DecodeEncodedPairs(pieces[1..], pairs[1..]);
    }
  }

  /** No piece of a flat query holds the `&` separator. */
  lemma FlatPiecesUnseparated(query: Entries)
    requires IsFlatAscii(query)
    ensures forall k :: 0 <= k < |QueryPieces(query)| ==> '&' !in QueryPieces(query)[k]
  {
    FlatQueryPieces(query);
    var pieces := QueryPieces(query);
    forall k | 0 <= k < |pieces| ensures '&' !in pieces[k] {
      var key, text := UrlEncode(TextPairs(query)[k].0), UrlEncode(TextPairs(query)[k].1);
      assert pieces[k] == key + "=" + text;
      EncodedUnseparated(key);
      EncodedUnseparated(text);
    }
  }

  /**
   * Round trip: the query string built from a flat ASCII query map reads back
   * as its non-null entries, in order, with their textual values.
   */
  lemma HttpBuildQueryRoundTrip(query: Entries)
    requires IsFlatAscii(query)
    ensures ParseQuery(HttpBuildQuery(query)) == TextPairs(query)
  {
    FlatQueryPieces(query);
    FlatTextPairsAscii(query);
    var pieces := QueryPieces(query);
    if pieces == [] {
      assert HttpBuildQuery(query) == [];
    } else {
      FlatPiecesUnseparated(query);
      SplitJoin(pieces, '&');
      assert HttpBuildQuery(query) != [] by {
        assert |pieces[0]| > 0 by {
          assert pieces[0] == UrlEncode(TextPairs(query)[0].0) + "=" + UrlEncode(TextPairs(query)[0].1);
        }
        JoinStartsWithFirst(pieces, '&');
      }
      DecodeEncodedPairs(pieces, TextPairs(query));
    }
  }

  lemma JoinStartsWithFirst(pieces: seq<string>, sep: char)
    requires pieces != []
    ensures |Join(pieces, sep)| >= |pieces[0]|
  {
  }
}
