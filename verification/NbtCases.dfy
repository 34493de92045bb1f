/** What the reader makes of level files that this program would not have written. */
module NbtCases {
  import opened World
  import opened NbtFormat
  import opened NbtRoundTrip

  // ---- Labels and texts -------------------------------------------------------------------

  /** Letters, underscores, parentheses and digits that are not the first character. */
  predicate Harmless(ch: int, i: nat) {
    65 <= ch <= 90 || 97 <= ch <= 122 || ch in [95, 40, 41] || (48 <= ch <= 57 && i > 0)
  }

  /** A label keeps its harmless characters, and has a dash for any other; one that is too long
      for the reader is no label at all. */
  lemma LabelRead(r: Reader, text: seq<Byte>, tail: seq<Byte>)
    requires |text| < 0x1_0000 && r.rest == Str(text) + tail
    ensures ReadLabel(r).Done? && ReadLabel(r).r.rest == tail
    ensures ReadLabel(r).r == r.(rest := tail, name := ReadLabel(r).r.name)
    ensures |text| >= 255 ==> ReadLabel(r).r.name == []
    ensures |text| < 255 ==>
              var name := ReadLabel(r).r.name;
              |name| == |text| && forall i :: 0 <= i < |name| ==>
                name[i] == if Harmless(text[i], i) then text[i] else 45
  {
    StrBack(text, tail);
  }

  /** A string is reported up to its first NUL, and no more than 4095 bytes of it. */
  lemma TextRead(r: Reader, text: seq<Byte>, tail: seq<Byte>)
    requires |text| < 0x1_0000 && r.rest == Str(text) + tail
    ensures var kept := CString(text[..if |text| < 4096 then |text| else 4095]);
            ReadText(r) == Done(r.(rest := tail, events := r.events + [StrValue(r.section, r.name, kept)]))
  {
    StrBack(text, tail);
    assert text[..|text|] == text;
  }

  /** A string that goes on beyond the end of the file is noticed. */
  lemma CutShort(r: Reader, len: nat)
    requires |r.rest| < 2 || (len == r.rest[0] as int * 256 + r.rest[1] as int && |r.rest| < 2 + len)
    ensures ReadLabel(r) == Failed && ReadText(r) == Failed
  {
  }

  // ---- Byte arrays ------------------------------------------------------------------------

  /** An array of no bytes is nothing.  The planes behind the first are refused before there is
      an array of blocks for them, except that nothing at all is read of the physics plane.  Of
      other arrays short ones are reported and long ones skipped; a file that ends in one is
      noticed. */
  lemma ArrayRead(r: Reader, len: nat)
    ensures len == 0 ==> ReadContents(r, len) == Done(r)
    ensures len > 0 && r.name in [BLOCK_ARRAY2, BLOCK_ARRAY3, BLOCK_ARRAY_EXT] && !r.open ==>
              ReadContents(r, len) == Failed
    ensures len > 0 && r.name == BLOCK_ARRAY_PHYSICS && !r.open ==> ReadContents(r, len) == Done(r)
    ensures 0 < len <= |r.rest| && (len <= 0xFFFF_0000 || r.name == BLOCK_ARRAY)
            && (r.name == BLOCK_ARRAY
                || (r.open && r.name in [BLOCK_ARRAY2, BLOCK_ARRAY3, BLOCK_ARRAY_EXT, BLOCK_ARRAY_PHYSICS])) ==>
              ReadContents(r, len)
              == Done(r.(rest := r.rest[len..], open := true, events := r.events + [Plane(r.name, r.rest[..len])]))
    ensures r.name !in [BLOCK_ARRAY, BLOCK_ARRAY2, BLOCK_ARRAY3, BLOCK_ARRAY_EXT, BLOCK_ARRAY_PHYSICS] ==>
              && (|r.rest| < len ==> ReadContents(r, len) == Failed)
              && (256 < len <= |r.rest| ==> ReadContents(r, len) == Done(r.(rest := r.rest[len..])))
              && (0 < len <= 256 && len <= |r.rest| ==>
                    ReadContents(r, len)
                    == Done(r.(rest := r.rest[len..],
                               events := r.events + [BinValue(r.section, r.name, r.rest[..len])])))
    ensures r.name == BLOCK_ARRAY && |r.rest| < len ==> ReadContents(r, len) == Failed
  {
  }

  // ---- Compounds and lists ----------------------------------------------------------------

  /** The end of a compound may be missing from the end of a file. */
  lemma EndMayBeMissing(r: Reader)
    requires r.rest == [] || r.rest[0] == 0
    ensures ReadChildren(r)
         == Done(r.(rest := if r.rest == [] then [] else r.rest[1..], indent := r.indent - 1, section := []))
  {
  }

  /** A tag that does not exist is the end of reading. */
  lemma BadTag(r: Reader, etype: int)
    requires etype < 0 || etype > 10
    ensures ReadElement(r, etype) == Failed
  {
  }

  /** The numbers of a list, one behind the other. */
  function Packed(vs: seq<int>, w: nat): (s: seq<Byte>)
    ensures |s| == |vs| * w
    decreases |vs|
  {
    if vs == [] then []
    else
      assert |vs| * w == w + |vs[1..]| * w;
      BigEndian(vs[0], w) + Packed(vs[1..], w)
  }

  function Numbers(r: Reader, vs: seq<int>, w: nat): seq<Event>
  {
    seq(|vs|, i requires 0 <= i < |vs| => IntValue(r.section, r.name, Wrap(vs[i], w)))
  }

  lemma ReadInteger(r: Reader, v: int, w: nat, tail: seq<Byte>)
    requires IsWidth(w) && r.rest == BigEndian(v, w) + tail
    ensures ReadElement(r, NumberTag(w))
         == Done(r.(rest := tail, events := r.events + [IntValue(r.section, r.name, Wrap(v, w))]))
  {
    hide ReadContents, ReadText, ReadChildren, ReadList, BigEndian, ReadUnsigned, Wrap;
    NumberBack(v, w, tail);
    assert (BigEndian(v, w) + tail)[w..] == tail;
  }

  lemma {:induction false} ReadIntegers(r: Reader, vs: seq<int>, w: nat, tail: seq<Byte>)
    requires IsWidth(w) && r.rest == Packed(vs, w) + tail
    ensures ReadList(r, NumberTag(w), |vs|) == Done(r.(rest := tail, events := r.events + Numbers(r, vs, w)))
    decreases |vs|
  {
    hide ReadElement;
    if vs == [] {
      assert r.rest == tail && r.events + Numbers(r, vs, w) == r.events;
    } else {
      assert r.rest == BigEndian(vs[0], w) + (Packed(vs[1..], w) + tail);
      ReadInteger(r, vs[0], w, Packed(vs[1..], w) + tail);
      var r1 := r.(rest := Packed(vs[1..], w) + tail,
                   events := r.events + [IntValue(r.section, r.name, Wrap(vs[0], w))]);
      ReadIntegers(r1, vs[1..], w, tail);
      assert r1.events + Numbers(r1, vs[1..], w) == r.events + Numbers(r, vs, w);
    }
  }

  lemma ListUnfolds(r: Reader)
    requires |r.rest| >= 5
    ensures ReadElement(r, TAG_LIST) == (
              var o := ReadList(r.(rest := r.rest[5..], indent := r.indent + 1), r.rest[0],
                                Wrap(ReadUnsigned(0, r.rest[1..], 4), 4));
              if o.Failed? then Failed else Done(o.r.(section := [], indent := o.r.indent - 1)))
  {
  }

  /** A list of numbers is read to its end, each of them reported under the name of the list;
      and the section is forgotten. */
  lemma ListRead(r: Reader, vs: seq<int>, w: nat, tail: seq<Byte>)
    requires IsWidth(w) && |vs| < 0x8000_0000
    requires r.rest == [NumberTag(w)] + BigEndian(|vs|, 4) + Packed(vs, w) + tail
    ensures ReadElement(r, TAG_LIST)
         == Done(r.(rest := tail, section := [], events := r.events + Numbers(r, vs, w)))
  {
    hide ReadList, ReadElement, BigEndian, ReadUnsigned, Packed, Wrap, Numbers;
    var (head, length, body) := (NumberTag(w), BigEndian(|vs|, 4), Packed(vs, w) + tail);
    assert r.rest == [head] + length + body;
    ListHead(head, length, body);
    ListUnfolds(r);
    NumberBack(|vs|, 4, body);
    WrapIsExact(|vs|, 4);
    ReadIntegers(r.(rest := body, indent := r.indent + 1), vs, w, tail);
    assert Numbers(r.(rest := body, indent := r.indent + 1), vs, w) == Numbers(r, vs, w) by {
      SameNumbers(r, r.(rest := body, indent := r.indent + 1), vs, w);
    }
  }

  lemma SameNumbers(r: Reader, r': Reader, vs: seq<int>, w: nat)
    requires r'.section == r.section && r'.name == r.name
    ensures Numbers(r', vs, w) == Numbers(r, vs, w)
  {
  }

  lemma ListHead(head: Byte, length: seq<Byte>, body: seq<Byte>)
    requires |length| == 4
    ensures var s := [head] + length + body; |s| >= 5 && s[0] == head && s[1..] == length + body && s[5..] == body
  {
  }

  /** A list that is cut off before its length is noticed. */
  lemma ListCutShort(r: Reader)
    requires |r.rest| < 5
    ensures ReadElement(r, TAG_LIST) == Failed
  {
  }

  // ---- Files ------------------------------------------------------------------------------

  /** What is no level file of this format: nothing at all or something binary is refused, what
      may be another format is left to others, and a document of another name is refused. */
  lemma OtherFiles(file: seq<Byte>)
    ensures file == [] || file[0] >= 0x80 ==> LoadFile(file) == BadFile
    ensures file != [] && file[0] < 0x80 && file[0] != 10 ==> LoadFile(file) == NotNbt
    ensures |file| >= 2 && file[0] == 10 && file[1] != 0 ==> LoadFile(file) == NotNbt
    ensures |file| == 1 && file[0] == 10 ==> LoadFile(file) == NotNbt
  {
  }

  lemma OtherName(name: seq<Byte>, tail: seq<Byte>)
    requires |name| < 0x100 && name != CLASSIC_WORLD && name != PACKET_LOG
    ensures LoadFile([10] + Str(name) + tail) == BadFile
  {
    hide ReadLabel, ReadElement, Str;
    var file := [10] + Str(name) + tail;
    assert file[1..] == Str(name) + tail;
    var r := Reader(file[1..], [], [], 0, false, []);
    LabelRead(r, name, tail);
    ShortStr(name, tail);
    AllHarmless();
    var found := ReadLabel(r).r.name;
    assert found != CLASSIC_WORLD && found != PACKET_LOG by {
      if found != [] && found != name {
        var i :| 0 <= i < |name| && found[i] != name[i];
        assert found[i] == 45;
      }
    }
  }

  lemma ShortStr(name: seq<Byte>, tail: seq<Byte>)
    requires |name| < 0x100
    ensures Str(name)[0] == 0 && Str(name)[1] == |name|
  {
    assert BigEndian(|name|, 2) == BigEndian(|name| / 256, 1) + [|name| % 256];
    assert BigEndian(0, 1) == BigEndian(0, 0) + [0];
  }

  lemma AllHarmless()
    ensures forall i :: 0 <= i < |CLASSIC_WORLD| ==> CLASSIC_WORLD[i] != 45
    ensures forall i :: 0 <= i < |PACKET_LOG| ==> PACKET_LOG[i] != 45
  {
  }
}
