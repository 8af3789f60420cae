/** `keyToDisplay` (src/main.cpp:220-239): the label the menus and the status
    line show for a control binding, and its partial inverse. */
module KeyDisplay {
  import opened Numerals
  import opened Keys
  import opened Wrappers

  /** `isprint` in the "C" locale: the ASCII bytes 0x20 to 0x7E. */
  predicate IsPrint(b: Byte)
  {
    0x20 <= b <= 0x7E
  }

  /** One byte of an unrecognised sequence: `0x`, the byte in upper-case
      hexadecimal without leading zeros, and a space. */
  function HexByte(b: Byte): string
  {
    "0x" + Numeral(b, 16) + " "
  }

  function SeqBody(k: Key): string
  {
    if k == [] then "" else HexByte(k[0]) + SeqBody(k[1..])
  }

  /** `keyToDisplay`: the label shown for a control binding. A label is one
      character only for a single printable key other than the space. */
  function KeyToDisplay(k: Key): (shown: string)
    ensures |shown| >= 1
    ensures |shown| == 1 <==> |k| == 1 && IsPrint(k[0]) && k[0] != 0x20
  {
    if k == [] then "NONE"
    else if k == UpArrow then "UP_ARROW"
    else if k == DownArrow then "DOWN_ARROW"
    else if k == RightArrow then "RIGHT_ARROW"
    else if k == LeftArrow then "LEFT_ARROW"
    else if k == [0x0A] || k == [0x0D] then "ENTER"
    else if k == [0x20] then "SPACE"
    else if k == [0x09] then "TAB"
    else if |k| == 1 && IsPrint(k[0]) then [k[0] as char]
    else SeqLabel(k)
  }

  /** The label of a sequence with no name of its own. */
  function SeqLabel(k: Key): string
  {
    "SEQ(" + SeqBody(k) + ")"
  }

  /** The index of the first space in `s`, or `|s|` if there is none. */
  function SpaceIndex(s: string): (i: nat)
    ensures i <= |s|
    ensures i < |s| ==> s[i] == ' '
    ensures forall j :: 0 <= j < i ==> s[j] != ' '
  {
    if s == [] || s[0] == ' ' then 0 else 1 + SpaceIndex(s[1..])
  }

  /** Reads back the bytes of a `SEQ(` label from just after its `(`. */
  function ParseSeqBody(s: string): Option<Key>
    decreases |s|
  {
    if s == ")" then Some([])
    else if |s| < 2 || s[..2] != "0x" then None
    else
      var n := SpaceIndex(s[2..]);
      var digits := s[2..2 + n];
      if n == 0 || 2 + n == |s| || !AllDigits(digits, 16) then None
      else
        var v := NumeralValue(digits, 16);
        if v >= 256 then None
        else
          match ParseSeqBody(s[3 + n..])
          case None => None
          case Some(rest) => Some([v] + rest)
  }

  /** The key a label stands for. ENTER is read as a line feed, although a
      carriage return is shown the same way. */
  function LabelToKey(text: string): Option<Key>
  {
    if text == "NONE" then Some([])
    else if text == "UP_ARROW" then Some(UpArrow)
    else if text == "DOWN_ARROW" then Some(DownArrow)
    else if text == "RIGHT_ARROW" then Some(RightArrow)
    else if text == "LEFT_ARROW" then Some(LeftArrow)
    else if text == "ENTER" then Some([0x0A])
    else if text == "SPACE" then Some([0x20])
    else if text == "TAB" then Some([0x09])
    else if |text| == 1 then
      if ' ' <= text[0] <= '~' then Some([text[0] as int]) else None
    else if |text| >= 4 && text[..4] == "SEQ(" then ParseSeqBody(text[4..])
    else None
  }

  lemma {:induction false} SpaceIndexAfter(digits: string, rest: string)
    requires forall j :: 0 <= j < |digits| ==> digits[j] != ' '
    ensures SpaceIndex(digits + " " + rest) == |digits|
  {
    if digits != [] {
      assert (digits + " " + rest)[1..] == digits[1..] + " " + rest;
      SpaceIndexAfter(digits[1..], rest);
    }
  }

  /** Reading one `0x<hex> ` item consumes exactly that item. */
  lemma ParseOneByte(b: Byte, tail: string)
    ensures ParseSeqBody(HexByte(b) + tail) ==
              match ParseSeqBody(tail)
              case None => None
              case Some(rest) => Some([b] + rest)
  {
    var h := Numeral(b, 16);
    var s := HexByte(b) + tail;
    assert s == "0x" + h + " " + tail;
    assert s[..2] == "0x";
    assert s[2..] == h + " " + tail;
    SpaceIndexAfter(h, tail);
    assert s[2..2 + |h|] == h;
    assert s[3 + |h|..] == tail;
    NumeralRoundTrip(b, 16);
  }

  /** The hexadecimal rendering of a sequence reads back as that sequence. */
  lemma {:induction false} SeqBodyRoundTrip(k: Key)
    ensures ParseSeqBody(SeqBody(k) + ")") == Some(k)
  {
    if k != [] {
      var tail := SeqBody(k[1..]) + ")";
      assert SeqBody(k) + ")" == HexByte(k[0]) + tail;
      ParseOneByte(k[0], tail);
      SeqBodyRoundTrip(k[1..]);
      assert [k[0]] + k[1..] == k;
    }
  }

  /** A text that starts with `SE` and is longer than four characters is none
      of the named labels. */
  lemma NotAWord(text: string)
    requires |text| > 4 && text[0] == 'S' && text[1] == 'E'
    ensures text != "NONE" && text != "UP_ARROW" && text != "DOWN_ARROW"
    ensures text != "RIGHT_ARROW" && text != "LEFT_ARROW" && text != "ENTER"
    ensures text != "SPACE" && text != "TAB"
  {
    assert "ENTER"[0] == 'E' && "SPACE"[1] == 'P';
  }

  lemma SeqLabelRoundTrip(k: Key)
    requires k != []
    ensures LabelToKey(SeqLabel(k)) == Some(k)
  {
    var shown := SeqLabel(k);
    assert shown[..4] == "SEQ(";
    assert shown[4..] == SeqBody(k) + ")";
    NotAWord(shown);
    SeqBodyRoundTrip(k);
  }

  /** Every label reads back as the key it was made from, except that a
      carriage return reads back as a line feed. */
  lemma DisplayRoundTrip(k: Key)
    ensures LabelToKey(KeyToDisplay(k)) == Some(if k == [0x0D] then [0x0A] else k)
  {
    var shown := KeyToDisplay(k);
    var named := k == [] || k == UpArrow || k == DownArrow || k == RightArrow || k == LeftArrow
                 || k == [0x0A] || k == [0x0D] || k == [0x20] || k == [0x09];
    if !named && |k| == 1 && IsPrint(k[0]) {
      assert shown == [k[0] as char];
      assert [k[0]] == k;
    } else if !named {
      SeqLabelRoundTrip(k);
    }
  }

  /** Two keys share a label exactly when they are equal or both are the
      ENTER keys, line feed and carriage return. */
  lemma DisplayDistinguishes(a: Key, b: Key)
    ensures KeyToDisplay(a) == KeyToDisplay(b) <==>
              a == b || (a in {[0x0A], [0x0D]} && b in {[0x0A], [0x0D]})
  {
    DisplayRoundTrip(a);
    DisplayRoundTrip(b);
  }

  /** Each arrow label is shown for its arrow sequence and for no other key. */
  lemma ArrowLabels(k: Key)
    ensures KeyToDisplay(k) == "UP_ARROW" <==> k == UpArrow
    ensures KeyToDisplay(k) == "DOWN_ARROW" <==> k == DownArrow
    ensures KeyToDisplay(k) == "RIGHT_ARROW" <==> k == RightArrow
    ensures KeyToDisplay(k) == "LEFT_ARROW" <==> k == LeftArrow
  {
    DisplayDistinguishes(k, UpArrow);
    DisplayDistinguishes(k, DownArrow);
    DisplayDistinguishes(k, RightArrow);
    DisplayDistinguishes(k, LeftArrow);
  }

  /** The Windows arrow codes get the same labels as the terminal's arrow
      sequences, and every other extended key is shown as a `SEQ(` label. */
  lemma ExtendedKeyLabels(code: int)
    ensures code == 72 <==> KeyToDisplay(ExtendedKey(code)) == "UP_ARROW"
    ensures code == 80 <==> KeyToDisplay(ExtendedKey(code)) == "DOWN_ARROW"
    ensures code == 77 <==> KeyToDisplay(ExtendedKey(code)) == "RIGHT_ARROW"
    ensures code == 75 <==> KeyToDisplay(ExtendedKey(code)) == "LEFT_ARROW"
    ensures !IsArrowCode(code) ==> KeyToDisplay(ExtendedKey(code))[..4] == "SEQ("
  {
    ArrowLabels(ExtendedKey(code));
    ExtendedKeyInjective(code, 72);
    ExtendedKeyInjective(code, 80);
    ExtendedKeyInjective(code, 77);
    ExtendedKeyInjective(code, 75);
    if !IsArrowCode(code) {
      ExtendedKeyFirstByte(code);
    }
  }
}
