/** Header values: the bytes a server receives, and when they read as text. */
module Headers {
  import opened Wrappers

  /** Visible ASCII and the two kinds of white space a field value may hold. */
  predicate Readable(c: char) { ' ' <= c <= '~' || c == '\t' }

  predicate IsText(s: string) { forall c <- s :: Readable(c) }

  /** Text that fits one byte per character, as a visitor may send it. */
  predicate IsWire(s: string) { forall c <- s :: c as int < 256 }

  function ByteOf(c: char): byte
    requires c as int < 256
  {
    c as int
  }

  function Bytes(s: string): (raw: seq<byte>)
    requires IsWire(s)
    ensures |raw| == |s| && forall i :: 0 <= i < |s| ==> raw[i] == s[i] as int
  {
    assert forall i :: 0 <= i < |s| ==> s[i] in s;
    seq(|s|, i requires 0 <= i < |s| => ByteOf(s[i]))
  }

  function Chars(raw: seq<byte>): (s: string)
    ensures |s| == |raw| && forall i :: 0 <= i < |raw| ==> s[i] == raw[i] as char
  {
    seq(|raw|, i requires 0 <= i < |raw| => raw[i] as char)
  }

  /** A value with any other byte does not read as text at all. */
  function ToStr(raw: seq<byte>): Option<string> {
    if IsText(Chars(raw)) then Some(Chars(raw)) else None
  }

  /** The text of a header, when there is one and it reads as text. */
  function TextOf(header: Option<seq<byte>>): Option<string> {
    if header.None? then None else ToStr(header.value)
  }

  /** White space around a field value is not part of it (section 5.5 of RFC 9110). */
  predicate Delivered(header: Option<seq<byte>>) {
    header.Some? && header.value != [] ==>
      var first, last := header.value[0], header.value[|header.value| - 1];
      first != 9 && first != 32 && last != 9 && last != 32
  }

  /** On bytes: a value reads as text exactly when every byte is visible ASCII, a space or a tab. */
  lemma ReadsAsTextIff(raw: seq<byte>)
    ensures ToStr(raw).Some? <==> forall b <- raw :: 32 <= b < 127 || b == 9
  {
    var s := Chars(raw);
    if IsText(s) {
      forall b <- raw ensures 32 <= b < 127 || b == 9 {
        var i :| 0 <= i < |raw| && raw[i] == b;
        assert s[i] in s && Readable(s[i]);
      }
    } else {
      var c :| c in s && !Readable(c);
      var i :| 0 <= i < |s| && s[i] == c;
      assert raw[i] in raw;
    }
  }

  /** Sent text is read unchanged exactly when it is text. */
  lemma SentIsReadIffText(s: string)
    requires IsWire(s)
    ensures TextOf(Some(Bytes(s))) == if IsText(s) then Some(s) else None
  {
    assert Chars(Bytes(s)) == s;
  }

  lemma TextIsWire(s: string)
    requires IsText(s)
    ensures IsWire(s)
  {
    assert forall c <- s :: Readable(c) && c as int < 256;
  }
}
