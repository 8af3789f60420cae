/** Key sequences as `getInputSequence` returns them (src/main.cpp:157-218):
    the bytes of one key press, empty when nothing was pressed. Arrow keys are
    ANSI cursor sequences on both platforms; the Windows branch translates the
    console's two-byte extended codes into them. */
module Keys {
  import opened Numerals

  type Byte = b: int | 0 <= b < 256

  /** The byte string of one key press. */
  type Key = seq<Byte>

  const UpArrow: Key := [0x1B, 0x5B, 0x41]     // ESC [ A
  const DownArrow: Key := [0x1B, 0x5B, 0x42]   // ESC [ B
  const RightArrow: Key := [0x1B, 0x5B, 0x43]  // ESC [ C
  const LeftArrow: Key := [0x1B, 0x5B, 0x44]   // ESC [ D

  predicate IsAscii(s: string)
  {
    forall i :: 0 <= i < |s| ==> s[i] as int < 128
  }

  /** The bytes of an ASCII string. */
  function Bytes(s: string): (k: Key)
    requires IsAscii(s)
    ensures |k| == |s| && forall i :: 0 <= i < |s| ==> k[i] == s[i] as int
  {
    seq(|s|, i requires 0 <= i < |s| => s[i] as int)
  }

  lemma BytesInjective(s: string, t: string)
    requires IsAscii(s) && IsAscii(t)
    ensures Bytes(s) == Bytes(t) <==> s == t
  {
    if Bytes(s) == Bytes(t) {
      assert |s| == |t|;
      forall i | 0 <= i < |s| ensures s[i] == t[i] {
        assert Bytes(s)[i] == Bytes(t)[i];
      }
    }
  }

  lemma AsciiConcat(a: string, b: string)
    requires IsAscii(a) && IsAscii(b)
    ensures IsAscii(a + b)
  {
  }

  lemma DecimalIsAscii(n: int)
    ensures IsAscii(Decimal(n))
  {
  }

  /** The sequence the Windows branch returns for an extended key whose second
      byte is `code`: one of the four arrow sequences, otherwise the text
      `WIN_SEQ(<code in decimal>)`. */
  function ExtendedKey(code: int): (k: Key)
    ensures |k| >= 3
  {
    if code == 72 then UpArrow
    else if code == 80 then DownArrow
    else if code == 77 then RightArrow
    else if code == 75 then LeftArrow
    else
      Bytes(WinSeqText(code))
  }

  /** The text that stands for an extended key other than an arrow. */
  function WinSeqText(code: int): (s: string)
    ensures IsAscii(s)
    ensures |s| >= 10 && s[0] == 'W' && s[8..|s| - 1] == Decimal(code)
  {
    var d := Decimal(code);
    DecimalIsAscii(code);
    AsciiConcat("WIN_SEQ(", d);
    AsciiConcat("WIN_SEQ(" + d, ")");
    var s := "WIN_SEQ(" + d + ")";
    assert s[8..|s| - 1] == d;
    s
  }

  predicate IsArrowCode(code: int)
  {
    code == 72 || code == 80 || code == 77 || code == 75
  }

  /** An arrow code yields an escape sequence, any other code the text `WIN_SEQ(`. */
  lemma ExtendedKeyFirstByte(code: int)
    ensures ExtendedKey(code)[0] == if IsArrowCode(code) then 0x1B else 'W' as int
  {
  }

  lemma WinSeqInjective(a: int, b: int)
    requires !IsArrowCode(a) && !IsArrowCode(b)
    requires ExtendedKey(a) == ExtendedKey(b)
    ensures a == b
  {
    BytesInjective(WinSeqText(a), WinSeqText(b));
    DecimalInjective(a, b);
  }

  /** Distinct extended codes give distinct sequences, so a binding captured
      from one extended key matches no other. */
  lemma ExtendedKeyInjective(a: int, b: int)
    ensures ExtendedKey(a) == ExtendedKey(b) <==> a == b
  {
    ExtendedKeyFirstByte(a);
    ExtendedKeyFirstByte(b);
    if !IsArrowCode(a) && !IsArrowCode(b) && ExtendedKey(a) == ExtendedKey(b) {
      WinSeqInjective(a, b);
    }
  }

  /** The Windows branch of `getInputSequence`: `hit` is `_kbhit()`, `ch` the
      first `_getch()` and `code` the second one, which is only read after a
      first byte of 0 or 224. Any other first byte is returned as it is,
      narrowed to a `char`. Nothing pressed gives the empty sequence, the
      arrow keys give the same escape sequences as a Unix terminal, and a
      plain key gives one byte, so it never reads as an extended key. */
  function WindowsInput(hit: bool, ch: int, code: int): (k: Key)
    ensures k == [] <==> !hit
    ensures k in {UpArrow, DownArrow, RightArrow, LeftArrow} <==>
              hit && (ch == 0 || ch == 224) && IsArrowCode(code)
    ensures |k| == 1 <==> hit && ch != 0 && ch != 224
    ensures |k| == 1 ==> k[0] == ch % 256
  {
    if !hit then []
    else if ch == 0 || ch == 224 then ExtendedKey(code)
    else [ch % 256]
  }
}
