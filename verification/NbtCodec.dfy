/** The functions that write a level file and the recursive function that reads one, as
    the source has them. */
module NbtCodec {
  import opened World
  import opened NbtFormat

  // ---- Writing ------------------------------------------------------------------------

  function IntWidth(v: int): (w: nat)
    ensures IsWidth(w)
    ensures InWidth(v, 4) ==> InWidth(v, w)
    ensures forall u :: u in [1, 2, 4] && u < w && InWidth(v, u) ==> u == 1 && v < 0
  {
    if 0 <= v <= 127 then 1 else if -32768 <= v <= 32767 then 2 else 4
  }

  function LongWidth(v: int): (w: nat)
    ensures IsWidth(w)
    ensures InWidth(v, 8) ==> InWidth(v, w)
    ensures forall u :: u in [1, 2, 4, 8] && u < w ==> !InWidth(v, u)
  {
    if -128 <= v <= 127 then 1 else if -32768 <= v <= 32767 then 2
    else if -2147483648 <= v <= 2147483647 then 4 else 8
  }

  lemma DivideTwice(v: int, a: nat, b: nat)
    requires a > 0 && b > 0
    ensures a * b > 0 && v / a / b == v / (a * b)
  {
    var q, r := v / a / b, v / a % b;
    assert v == (q * b + r) * a + v % a;
    assert v == q * (a * b) + (r * a + v % a);
    assert r * a <= (b - 1) * a;
    DivideUniquely(q, r * a + v % a, v / (a * b), v % (a * b), a * b);
  }

  lemma Bytes1(v: int)
    ensures BigEndian(v, 1) == [v % 256]
  {
    assert BigEndian(v / 256, 0) == [];
  }

  lemma Bytes2(v: int)
    ensures BigEndian(v, 2) == [v / 0x100 % 256, v % 256]
  {
    Bytes1(v / 256);
  }

  lemma Bytes4(v: int)
    ensures BigEndian(v, 4) == [v / 0x100_0000 % 256, v / 0x1_0000 % 256, v / 0x100 % 256, v % 256]
  {
    Bytes2(v / 256 / 256);
    assert BigEndian(v / 256, 3) == BigEndian(v / 256 / 256, 2) + [v / 256 % 256];
    DivideTwice(v, 0x100, 0x100);
    DivideTwice(v, 0x1_0000, 0x100);
  }

  lemma Bytes8(v: int)
    ensures BigEndian(v, 8) == BigEndian(v / 0x1_0000_0000, 4) + BigEndian(v, 4)
  {
    var v1 := v / 256;
    var v2 := v1 / 256;
    var v3 := v2 / 256;
    DivideTwice(v, 0x100, 0x100);
    DivideTwice(v, 0x1_0000, 0x100);
    DivideTwice(v, 0x100_0000, 0x100);
    assert v3 / 256 == v / 0x1_0000_0000;
    var top := BigEndian(v3 / 256, 4);
    assert BigEndian(v3, 5) == top + [v3 % 256];
    assert BigEndian(v2, 6) == BigEndian(v3, 5) + [v2 % 256];
    assert BigEndian(v1, 7) == BigEndian(v2, 6) + [v1 % 256];
    Bytes4(v);
  }

  class Writer {
    var out: seq<Byte>

    constructor ()
      ensures out == []
    {
      out := [];
    }

    /** `gzputc` stores the low byte. */
    method PutC(c: int)
      modifies this
      ensures out == old(out) + [c % 256]
    {
      out := out + [c % 256];
    }

    method BcString(s: seq<Byte>)
      modifies this
      ensures out == old(out) + Str(s)
    {
      Bytes2(|s|);
      PutC(|s| / 0x100);
      PutC(|s|);
      out := out + s;
    }

    method BcLabelled(tag: Byte, name: Label)
      modifies this
      ensures out == old(out) + ([tag] + Str(name))
    {
      PutC(tag);
      BcString(name);
    }

    method BcEntString(name: Label, text: seq<Byte>)
      modifies this
      ensures out == old(out) + Encode(Text(name, text))
    {
      BcLabelled(TAG_TEXT, name);
      BcString(text);
    }

    method BcEntBytes(name: Label, data: seq<Byte>)
      modifies this
      ensures out == old(out) + Encode(Bytes(name, data))
    {
      BcLabelled(TAG_BYTES, name);
      PutFour(|data|);
      out := out + data;
    }

    method PutFour(v: int)
      modifies this
      ensures out == old(out) + BigEndian(v, 4)
    {
      Bytes4(v);
      PutC(v / 0x100_0000);
      PutC(v / 0x1_0000);
      PutC(v / 0x100);
      PutC(v);
    }

    method BcEntInt8(name: Label, v: int)
      modifies this
      ensures out == old(out) + Encode(Number(name, 1, v))
    {
      Bytes1(v);
      BcLabelled(TAG_I8, name);
      PutC(v);
    }

    method BcEntInt16(name: Label, v: int)
      modifies this
      ensures out == old(out) + Encode(Number(name, 2, v))
    {
      Bytes2(v);
      BcLabelled(TAG_I16, name);
      PutC(v / 0x100);
      PutC(v);
    }

    method BcEntInt32(name: Label, v: int)
      modifies this
      ensures out == old(out) + Encode(Number(name, 4, v))
    {
      BcLabelled(TAG_I32, name);
      PutFour(v);
    }

    method BcEntInt64(name: Label, v: int)
      modifies this
      ensures out == old(out) + Encode(Number(name, 8, v))
    {
      hide BigEndian;
      Bytes8(v);
      BcLabelled(TAG_I64, name);
      PutFour(v / 0x1_0000_0000);
      PutFour(v);
    }

    /** An `int`, in as few bytes as other readers of the format can bear. */
    method BcEntInt(name: Label, v: int)
      modifies this
      ensures out == old(out) + Encode(Number(name, IntWidth(v), v))
    {
      if v >= 0 && v <= 127 { BcEntInt8(name, v); return; }
      if v >= -32768 && v <= 32767 { BcEntInt16(name, v); return; }
      BcEntInt32(name, v);
    }

    method BcEntLong(name: Label, v: int)
      modifies this
      ensures out == old(out) + Encode(Number(name, LongWidth(v), v))
    {
      if v >= -128 && v <= 127 { BcEntInt8(name, v); return; }
      if v >= -32768 && v <= 32767 { BcEntInt16(name, v); return; }
      if v >= -2147483648 && v <= 2147483647 { BcEntInt32(name, v); return; }
      BcEntInt64(name, v);
    }

    /** The bits of a 32 bit float. */
    method BcEntFloat(name: Label, bits: int)
      modifies this
      ensures out == old(out) + Encode(Float(name, bits))
    {
      BcLabelled(TAG_F32, name);
      PutFour(bits);
    }

    method BcCompound(name: Label)
      modifies this
      ensures out == old(out) + ([TAG_COMPOUND as Byte] + Str(name))
    {
      BcLabelled(TAG_COMPOUND, name);
    }

    method BcEnd()
      modifies this
      ensures out == old(out) + [TAG_END]
    {
      PutC(TAG_END);
    }
  }

  // ---- Reading ------------------------------------------------------------------------

  const TAG_LABEL := -1

  function Expected(r: Reader, etype: int): Outcome {
    if etype == TAG_LABEL then ReadLabel(r) else ReadElement(r, etype)
  }

  class Loader {
    var rest: seq<Byte>
    var lastLbl: Label
    var lastSect: Label
    var indent: int
    var open: bool
    var events: seq<Event>

    ghost function View(): Reader
      reads this
    {
      Reader(rest, lastLbl, lastSect, indent, open, events)
    }

    constructor (file: seq<Byte>)
      ensures View() == Reader(file, [], [], 0, false, [])
    {
      rest, lastLbl, lastSect, indent, open, events := file, [], [], 0, false, [];
    }

    method GetChar() returns (ch: int)
      modifies this`rest
      ensures ch == GetC(old(rest)) && rest == Drop(old(rest), 1)
    {
      if rest == [] { return -1; }
      ch := rest[0];
      rest := rest[1..];
    }

    /** `n` bytes as an unsigned number; `short` says that the last one was missing. */
    method ReadBigEndian(n: nat) returns (v: int, short: bool)
      requires n > 0
      modifies this`rest
      ensures v == ReadUnsigned(0, old(rest), n) && rest == Drop(old(rest), n)
      ensures short <==> |old(rest)| < n
    {
      v := 0;
      var ch := 0;
      for i := 0 to n
        invariant rest == Drop(old(rest), i)
        invariant ReadUnsigned(v, rest, n - i) == ReadUnsigned(0, old(rest), n)
        invariant i > 0 ==> (ch == -1 <==> |old(rest)| < i)
      {
        assert Drop(Drop(old(rest), i), 1) == Drop(old(rest), i + 1);
        ch := GetChar();
        v := v * 256 + ch % 256;
      }
      short := ch == -1;
    }

    /** The length of a byte array. */
    method ReadArrayLength() returns (len: nat)
      modifies this`rest
      ensures len == ReadLength(0, old(rest), 4) && rest == Drop(old(rest), 4)
    {
      len := 0;
      for i := 0 to 4
        invariant rest == Drop(old(rest), i)
        invariant ReadLength(len, rest, 4 - i) == ReadLength(0, old(rest), 4)
      {
        assert Drop(Drop(old(rest), i), 1) == Drop(old(rest), i + 1);
        var ch := GetChar();
        len := (len * 256 + ch) % 0x1_0000_0000;
      }
    }

    /** `len` bytes of the file, if there are as many. */
    method TakeBytes(len: nat) returns (ok: bool, data: seq<Byte>)
      modifies this`rest
      ensures ok <==> len <= |old(rest)|
      ensures ok ==> data == old(rest)[..len] && rest == old(rest)[len..]
    {
      data := [];
      var i := 0;
      while i < len
        invariant 0 <= i <= len && |data| == i && data + rest == old(rest)
      {
        var ch := GetChar();
        if ch == -1 { return false, data; }
        data := data + [ch];
        i := i + 1;
      }
      ok := true;
    }

    method TakeString() returns (ok: bool, text: seq<Byte>)
      modifies this`rest
      ensures var (ok', text', rest') := TakeStr(old(rest)); ok == ok' && (ok ==> text == text' && rest == rest')
    {
      var hi := GetChar();
      var lo := GetChar();
      if lo == -1 { return false, []; }
      ok, text := TakeBytes(hi * 256 + lo);
    }

    /** A label, or the text of a string: two bytes of length, then the bytes. */
    method ReadString(isText: bool) returns (ok: bool)
      modifies this
      ensures var o := if isText then ReadText(old(View())) else ReadLabel(old(View()));
              if ok then o == Done(View()) else o.Failed?
    {
      hide TakeStr, Sanitised, CString;
      var text;
      ok, text := TakeString();
      if !ok { return; }
      if isText {
        var kept := CString(if |text| < TEXT_SIZE then text else text[..TEXT_SIZE - 1]);
        events := events + [StrValue(lastSect, lastLbl, kept)];
      } else {
        lastLbl := if |text| < LABEL_SIZE - 1 then Sanitised(text) else [];
      }
    }

    method ReadNumeric(etype: int)
      requires TAG_I8 <= etype <= TAG_F64
      modifies this
      ensures ReadNumber(old(View()), etype) == Done(View())
    {
      hide Wrap, ReadUnsigned;
      var len := if etype == TAG_I8 then 1 else if etype == TAG_I16 then 2
                 else if etype == TAG_I32 || etype == TAG_F32 then 4 else 8;
      var v, _ := ReadBigEndian(len);
      v := Wrap(v, len);
      if etype <= TAG_I64 {
        events := events + [IntValue(lastSect, lastLbl, v)];
      } else {
        events := events + [FloatValue(lastSect, lastLbl, len, v)];
      }
    }

    method ReadByteArray() returns (ok: bool)
      modifies this
      ensures var o := ReadElement(old(View()), TAG_BYTES); if ok then o == Done(View()) else o.Failed?
    {
      hide ReadLength, Drop;
      var len := ReadArrayLength();
      if len > 0 {
        if lastLbl == BLOCK_ARRAY {
          open := true;
        } else if IsLaterPlane(lastLbl) {
          if !open { return false; }
          if len > TOO_LONG { return true; }
        } else if lastLbl == BLOCK_ARRAY_PHYSICS {
          if !open || len > TOO_LONG { return true; }
        }
      }
      if len == 0 { return true; }
      var data;
      ok, data := TakeBytes(len);
      if !ok { return false; }
      if IsPlane(lastLbl) {
        events := events + [Plane(lastLbl, data)];
      } else if len <= 256 {
        events := events + [BinValue(lastSect, lastLbl, data)];
      }
    }

    /** `read_element` */
    method ReadElementOf(etype: int) returns (ok: bool)
      modifies this
      ensures var o := Expected(old(View()), etype); if ok then o == Done(View()) else o.Failed?
      decreases |rest|
    {
      hide ReadContents, ReadText, ReadNumber, ReadLabel, ReadList;
      if etype == TAG_END { return true; }
      if etype == TAG_BYTES {
        ok := ReadByteArray();
      } else if etype == TAG_TEXT || etype == TAG_LABEL {
        ok := ReadString(etype == TAG_TEXT);
      } else if etype == TAG_COMPOUND {
        if indent > 0 { lastSect := lastLbl; }
        indent := indent + 1;
        ghost var inside := View();
        while true
          invariant |rest| <= |old(rest)| && ReadChildren(View()) == ReadChildren(inside)
          decreases |rest|
        {
          var tag := GetChar();
          if tag == TAG_END || tag == -1 {
            indent := indent - 1;
            lastSect := [];
            return true;
          }
          ok := ReadElementOf(TAG_LABEL);
          if !ok { return false; }
          ok := ReadElementOf(tag);
          if !ok { return false; }
        }
      } else if etype == TAG_LIST {
        ok := ReadListOf();
      } else if etype < TAG_END || etype > TAG_COMPOUND {
        return false;
      } else {
        ReadNumeric(etype);
        return true;
      }
    }

    /** The list part of `read_element`. */
    method ReadListOf() returns (ok: bool)
      modifies this
      ensures var o := ReadElement(old(View()), TAG_LIST); if ok then o == Done(View()) else o.Failed?
      decreases |rest|, 0
    {
      hide Wrap, ReadUnsigned, ReadContents, ReadText, ReadNumber, ReadChildren, ReadLabel;
      ghost var r := View();
      var tag := GetChar();
      if tag == -1 { return false; }
      assert rest == r.rest[1..];
      var len, short := ReadBigEndian(4);
      if short { return false; }
      assert rest == r.rest[5..];
      len := Wrap(len, 4);
      indent := indent + 1;
      ghost var inside := View();
      var i := 0;
      while i < len
        invariant i >= 0 && |rest| < |old(rest)|
        invariant ReadList(View(), tag, len - i) == ReadList(inside, tag, len)
        decreases len - i
      {
        ok := ReadElementOf(tag);
        if !ok { return false; }
        i := i + 1;
      }
      lastSect := [];
      indent := indent - 1;
      ok := true;
    }

    /** `load_cwfile`: 1 if the file was loaded, 0 if it is of another kind. */
    method LoadCwFile() returns (rv: int)
      requires View() == Reader(rest, [], [], 0, false, [])
      modifies this
      ensures match LoadFile(old(rest))
              case NotNbt => rv == 0
              case BadFile => rv == -1
              case Loaded(r) => rv == 1 && View() == r
    {
      hide ReadLabel, ReadElement;
      var ch := GetChar();
      if ch == TAG_COMPOUND {
        // The second byte is looked at and put back.
        if GetC(rest) != 0 { return 0; }
        var ok := ReadElementOf(TAG_LABEL);
        if !ok { return -1; }
        if lastLbl != CLASSIC_WORLD && lastLbl != PACKET_LOG { return -1; }
        ok := ReadElementOf(TAG_COMPOUND);
        return if ok then 1 else -1;
      }
      rv := if ch == -1 || ch >= 0x80 then -1 else 0;
    }
  }
}
