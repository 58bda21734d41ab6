/** Cursors: the sort value and identifier of a row, with a checksum, as URL-safe text. */
module CursorCodec {
  import opened Wrappers
  import opened Text
  import J = JsonText
  import JG = JsonGrammar
  import B = Base64Url

  type Digest = (string, string) -> string

  function AsciiBytes(text: string): (r: seq<B.Byte>)
    requires Ascii(text)
  {
    if text == "" then []
    else [text[0] as int] + AsciiBytes(text[1..])
  }

  /** The text of a payload; one that is not ASCII is not read here. */
  function TextOf(bytes: seq<B.Byte>): Option<string> {
    if bytes == [] then Some("")
    else if bytes[0] >= 128 then None
    else
      var rest := TextOf(bytes[1..]);
      if rest.None? then None else Some([bytes[0] as char] + rest.value)
  }

  /** Strings as a cursor, whatever they are. */
  function WriteCursor(items: seq<string>): string
    requires items != []
  {
    J.StringsAscii(items);
    B.StripPadding(B.Encode(AsciiBytes(J.WriteStrings(items))))
  }

  function EncodeCursor(digest: Digest, sortValue: string, uid: string): string {
    WriteCursor([sortValue, uid, digest(sortValue, uid)])
  }

  function DecodeCursor(digest: Digest, cursor: string): Option<(string, string)> {
    var payload := B.Decode(cursor + B.Padding(|cursor|));
    if payload.None? then None
    else
      var text := TextOf(payload.value);
      var items := if text.None? then None else J.ReadStrings(text.value);
      if items.None? || |items.value| != 3 || items.value[2] != digest(items.value[0], items.value[1]) then None
      else Some((items.value[0], items.value[1]))
  }

  lemma {:induction false} TextRoundTrip(text: string)
    requires Ascii(text)
    ensures TextOf(AsciiBytes(text)) == Some(text)
  {
    if text != "" {
      TextRoundTrip(text[1..]);
      assert [text[0]] + text[1..] == text;
    }
  }

  /** Strings written as a cursor are read as a position exactly if they are a position and its checksum. */
  lemma CursorExactly(digest: Digest, items: seq<string>, sortValue: string, uid: string)
    requires items != []
    ensures DecodeCursor(digest, WriteCursor(items)) == Some((sortValue, uid))
            <==> items == [sortValue, uid, digest(sortValue, uid)]
    ensures DecodeCursor(digest, WriteCursor(items)).Some? ==> |items| == 3
  {
    hide J.WriteStrings, J.ReadStrings, B.Decode, B.Encode, B.StripPadding, B.Padding, TextOf, AsciiBytes;
    J.StringsAscii(items);
    J.StringsRoundTrip(items);
    TextRoundTrip(J.WriteStrings(items));
    B.RoundTrip(AsciiBytes(J.WriteStrings(items)));
  }

  /** Every cursor decodes to the position it was made from. */
  lemma CursorRoundTrip(digest: Digest, sortValue: string, uid: string)
    ensures DecodeCursor(digest, EncodeCursor(digest, sortValue, uid)) == Some((sortValue, uid))
  {
    CursorExactly(digest, [sortValue, uid, digest(sortValue, uid)], sortValue, uid);
    hide DecodeCursor, WriteCursor;
  }

  /** Text outside ASCII is no cursor, nor is text with the wrong checksum or another number of strings. */
  lemma CursorRefused(digest: Digest, cursor: string)
    ensures !Ascii(cursor) ==> DecodeCursor(digest, cursor) == None
    ensures forall items: seq<string> ::
              items != [] && (|items| != 3 || items[2] != digest(items[0], items[1])) && cursor == WriteCursor(items) ==>
              DecodeCursor(digest, cursor) == None
  {
    forall items: seq<string> |
      items != [] && (|items| != 3 || items[2] != digest(items[0], items[1])) && cursor == WriteCursor(items)
      ensures DecodeCursor(digest, cursor) == None
    {
      var r := DecodeCursor(digest, cursor);
      if r.Some? { CursorExactly(digest, items, r.value.0, r.value.1); }
    }
    hide WriteCursor, J.ReadStrings, TextOf, B.Read;
    if !Ascii(cursor) { NotAscii(cursor, B.Padding(|cursor|)); }
  }

  lemma NotAscii(text: string, more: string)
    ensures !Ascii(text) ==> !Ascii(text + more)
  {
    if Ascii(text + more) {
      forall i | 0 <= i < |text| ensures text[i] as int < 128 { assert (text + more)[i] == text[i]; }
    }
  }

  /** The bytes are the ASCII text t. */
  predicate Encodes(bytes: seq<B.Byte>, t: string) {
    |bytes| == |t| && forall i :: 0 <= i < |t| ==> t[i] as int == bytes[i] && bytes[i] < 128
  }

  lemma {:induction false} TextExactly(bytes: seq<B.Byte>, t: string)
    ensures TextOf(bytes) == Some(t) <==> Encodes(bytes, t)
  {
    if bytes == [] {
    } else if bytes[0] >= 128 {
      assert !Encodes(bytes, t);
    } else if t == "" {
    } else {
      TextExactly(bytes[1..], t[1..]);
      assert [t[0]] + t[1..] == t;
      assert bytes == [bytes[0]] + bytes[1..];
      if TextOf(bytes) == Some(t) {
        assert TextOf(bytes[1..]) == Some(t[1..]);
        forall i | 0 <= i < |t| ensures t[i] as int == bytes[i] && bytes[i] < 128 {
          if i > 0 { assert t[1..][i - 1] == t[i] && bytes[1..][i - 1] == bytes[i]; }
        }
      }
      if Encodes(bytes, t) {
        forall i | 0 <= i < |t[1..]| ensures t[1..][i] as int == bytes[1..][i] && bytes[1..][i] < 128 {
          assert t[1..][i] == t[i + 1] && bytes[1..][i] == bytes[i + 1];
        }
      }
    }
  }

  /** A cursor is read as a position exactly if its bytes spell the position and its checksum in JSON. */
  lemma DecodesExactly(digest: Digest, cursor: string, sortValue: string, uid: string)
    ensures DecodeCursor(digest, cursor) == Some((sortValue, uid))
            <==> exists bytes, t ::
                   && B.Decode(cursor + B.Padding(|cursor|)) == Some(bytes) && Encodes(bytes, t)
                   && JG.SpellsArray(t, [sortValue, uid, digest(sortValue, uid)])
  {
    hide J.ReadStrings, B.Decode, B.Padding, TextOf, Encodes, JG.SpellsArray;
    var payload, items := B.Decode(cursor + B.Padding(|cursor|)), [sortValue, uid, digest(sortValue, uid)];
    if payload.Some? {
      var text := TextOf(payload.value);
      forall t ensures text == Some(t) <==> Encodes(payload.value, t) { TextExactly(payload.value, t); }
      if text.Some? {
        JG.ArraysExactly(text.value, items);
        if DecodeCursor(digest, cursor) == Some((sortValue, uid)) {
          assert J.ReadStrings(text.value).value == items;
          assert Encodes(payload.value, text.value) && JG.SpellsArray(text.value, items);
        }
      }
    }
  }

  /** Different positions have different cursors. */
  lemma CursorInjective(digest: Digest, a: (string, string), b: (string, string))
    requires EncodeCursor(digest, a.0, a.1) == EncodeCursor(digest, b.0, b.1)
    ensures a == b
  {
    hide EncodeCursor, DecodeCursor;
    CursorRoundTrip(digest, a.0, a.1);
    CursorRoundTrip(digest, b.0, b.1);
  }
}
