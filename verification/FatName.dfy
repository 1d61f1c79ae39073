/** Short names inside directory entries. */
module FatName {
  import opened Disk
  import opened Path
  import opened Tree

  const SPACE: byte := 32
  const EPOCH := 0x21

  datatype Decoded = Name(text: string) | Hidden | Broken

  /** A field without its trailing padding. */
  function Trim(field: seq<byte>): seq<byte> {
    if field != [] && field[|field| - 1] == SPACE then Trim(field[..|field| - 1]) else field
  }

  function Pad(field: seq<byte>, width: nat): seq<byte>
    decreases width - |field|
  {
    if |field| >= width then field else Pad(field + [SPACE], width)
  }

  function Text(field: seq<byte>): (r: string)
    ensures |r| == |field|
  {
    seq(|field|, i requires 0 <= i < |field| => Upper(field[i] as char))
  }

  function BaseField(e: Entry): seq<byte> { e[..8] }
  function ExtensionField(e: Entry): seq<byte> { e[8..11] }

  function Dotted(base: string, extension: string): string {
    base + if extension != "" then "." + extension else ""
  }

  /** The spelling an entry is looked up by. Names outside the 8.3 subset are
      hidden; padding or a zero inside a field is damage. */
  function ShortName(e: Entry): Decoded {
    var base, extension := Trim(BaseField(e)), Trim(ExtensionField(e));
    if base == [] || SPACE in base || 0 in base || SPACE in extension || 0 in extension then Broken
    else
      var text := Dotted(Text(base), Text(extension));
      if Is83(text) then Name(text) else Hidden
  }

  /** Entries a lookup passes over before it decodes a name. */
  predicate Passed(e: Entry) {
    || e[0] == DELETED
    || Bit(Attributes(e), 8)
    || (e[0] == '.' as int && e[1] == SPACE)
    || (e[0] == '.' as int && e[1] == '.' as int && e[2] == SPACE)
  }

  /** A slot whose name a lookup can match is a live entry. */
  lemma NamedIsUsed(e: Entry)
    requires e[0] != 0 && !Passed(e) && ShortName(e).Name?
    requires !Bit(Attributes(e), 0x40) && !Bit(Attributes(e), 0x80) && U16(e, 20) == 0
    ensures Classify(e) == Used
  {
    hide ShortName;
    assert Bit(LONG_NAME, 8);
  }

  lemma VisibleIsUsed(e: Entry)
    requires e[0] != 0 && !Passed(e)
    ensures Classify(e) in {Used, Bad}
  {
    assert Bit(LONG_NAME, 8);
  }

  // ----- Making entries ---------------------------------------------------------------

  predicate Ascii(name: string) {
    forall j :: 0 <= j < |name| ==> name[j] < 128 as char
  }

  function Bytes(name: string): (r: seq<byte>)
    requires Ascii(name)
    ensures |r| == |name|
  {
    seq(|name|, i requires 0 <= i < |name| => name[i] as int)
  }

  lemma AsciiName(name: string, k: nat)
    requires BaseOf(name, k)
    ensures Ascii(name)
  {
    forall j | 0 <= j < |name|
      ensures name[j] < 128 as char
    {
      BaseUnique(name, k, j);
    }
  }

  function Extension(name: string, k: nat): string
    requires k <= |name|
  {
    if k < |name| then name[k + 1..] else ""
  }

  lemma {:induction false} PadShape(field: seq<byte>, width: nat)
    requires |field| <= width
    ensures |Pad(field, width)| == width
    ensures forall i :: 0 <= i < width ==> Pad(field, width)[i] == if i < |field| then field[i] else SPACE
    decreases width - |field|
  {
    if |field| < width { PadShape(field + [SPACE], width); }
  }

  /** The eleven name bytes of a valid name with base length `k`. */
  function NameField(name: string, k: nat): (r: seq<byte>)
    requires BaseOf(name, k)
    ensures |r| == 11
  {
    AsciiName(name, k);
    var base, extension := Bytes(name[..k]), Bytes(Extension(name, k));
    PadShape(base, 8);
    PadShape(extension, 3);
    Pad(base, 8) + Pad(extension, 3)
  }

  function Stamp(e: Entry): (r: Entry)
    ensures forall i :: 0 <= i < 32 && i !in {16, 17, 18, 19, 24, 25} ==> r[i] == e[i]
  {
    Put16(Put16(Put16(e, 16, EPOCH), 18, EPOCH), 24, EPOCH)
  }

  /** The fresh entry of a new file or directory. */
  function NewEntry(name: string, k: nat, directory: bool, first: nat, size: nat): (e: Entry)
    requires BaseOf(name, k) && first < 0x1_0000 && size < 0x1_0000_0000
    ensures e[..11] == NameField(name, k)
    ensures Attributes(e) == if directory then 0x10 else 0x20
    ensures U16(e, 20) == 0 && First(e) == first && Size(e) == size
  {
    var blank: Entry := NameField(name, k) + [if directory then 0x10 else 0x20] + Zeros(20);
    Put32(Put16(Stamp(blank), 26, first), 28, size)
  }

  lemma {:induction false} TrimPad(field: seq<byte>, width: nat)
    requires SPACE !in field
    ensures Trim(Pad(field, width)) == field
    decreases width - |field|
  {
    TrimSpaces(field, field, width);
  }

  lemma {:induction false} TrimSpaces(field: seq<byte>, padded: seq<byte>, width: nat)
    requires SPACE !in field && Trim(padded) == field
    ensures Trim(Pad(padded, width)) == field
    decreases width - |padded|
  {
    if |padded| < width {
      var more := padded + [SPACE];
      assert more[..|more| - 1] == padded;
      TrimSpaces(field, more, width);
    }
  }

  lemma TextBytes(name: string)
    requires Ascii(name) && IsUpper(name)
    ensures Text(Bytes(name)) == name
  {
  }

  lemma FieldsOf(name: string, k: nat, e: Entry)
    requires BaseOf(name, k) && e[..11] == NameField(name, k)
    ensures Ascii(name)
    ensures BaseField(e) == Pad(Bytes(name[..k]), 8) && ExtensionField(e) == Pad(Bytes(Extension(name, k)), 3)
  {
    AsciiName(name, k);
    PadShape(Bytes(name[..k]), 8);
    PadShape(Bytes(Extension(name, k)), 3);
    assert e[..8] == e[..11][..8] && e[8..11] == e[..11][8..];
  }

  lemma NameParts(name: string, k: nat)
    requires BaseOf(name, k)
    ensures name == Dotted(name[..k], Extension(name, k)) && name[..k] != ""
  {
    if k < |name| {
      assert name == name[..k] + ([name[k]] + name[k + 1..]);
    } else {
      assert name == name[..k] + "";
    }
  }

  lemma PartBytes(name: string, part: string)
    requires Is83(name) && forall i :: 0 <= i < |part| ==> part[i] in name
    ensures Ascii(part) && SPACE !in Bytes(part) && 0 !in Bytes(part)
  {
    ShortNames(name);
  }

  /** What is written under a name is found under that name. */
  lemma NewEntryName(name: string, k: nat, e: Entry)
    requires Canonical(name) && BaseOf(name, k) && e[..11] == NameField(name, k)
    ensures ShortName(e) == Name(name)
  {
    hide Trim, Pad, NameField, Is83, Bytes, Text, Dotted, Ascii;
    FieldsOf(name, k, e);
    var base, extension := name[..k], Extension(name, k);
    PartBytes(name, base);
    PartBytes(name, extension);
    TrimPad(Bytes(base), 8);
    TrimPad(Bytes(extension), 3);
    TextBytes(base);
    TextBytes(extension);
    NameParts(name, k);
  }

  lemma NewEntryUsed(name: string, k: nat, directory: bool, first: nat, size: nat)
    requires BaseOf(name, k) && first < 0x1_0000 && size < 0x1_0000_0000
    ensures var e := NewEntry(name, k, directory, first, size);
      Classify(e) == Used && !Passed(e) && (DirectoryBit(e) <==> directory) && !ReadOnlyBit(e)
  {
    hide Trim, Pad, NameField, NewEntry;
    var e := NewEntry(name, k, directory, first, size);
    FieldsOf(name, k, e);
    BaseUnique(name, k, 0);
    PadShape(Bytes(name[..k]), 8);
    assert e[0] == BaseField(e)[0] == name[0] as int;
  }

  /** Fill the name field character by character, switching to the extension at
      the dot. */
  method FillName(name: string, ghost k: nat) returns (field: seq<byte>)
    requires BaseOf(name, k) && Ascii(name)
    ensures field == NameField(name, k)
  {
    hide Pad;
    ghost var base, extension := Bytes(name[..k]), Bytes(Extension(name, k));
    PadShape(base, 8);
    PadShape(extension, 3);
    field := [SPACE, SPACE, SPACE, SPACE, SPACE, SPACE, SPACE, SPACE, SPACE, SPACE, SPACE];
    var offset := 0;
    for at := 0 to |name|
      invariant |field| == 11
      invariant at <= k ==> offset == at
      invariant at > k ==> offset == 8 + (at - k - 1)
      invariant forall i :: 0 <= i < 8 ==> field[i] == if i < k && i < at then base[i] else SPACE
      invariant forall i :: 8 <= i < 11 ==>
        field[i] == if k + 1 + (i - 8) < at then name[k + 1 + (i - 8)] as int else SPACE
    {
      BaseUnique(name, k, at);
      if name[at] == '.' {
        offset := 8;
      } else {
        field := field[offset := name[at] as int];
        offset := offset + 1;
      }
    }
    assert field == Pad(base, 8) + Pad(extension, 3);
  }

  // ----- Updating entries -----------------------------------------------------------------

  function SetArchive(attributes: byte): byte {
    if Bit(attributes, 0x20) then attributes else attributes + 0x20
  }

  /** An existing or fresh entry pointed at a new chain; name and dates are kept. */
  function Rewritten(e: Entry, first: nat, size: nat): (r: Entry)
    requires first < 0x1_0000 && size < 0x1_0000_0000
    ensures r[..11] == e[..11] && Attributes(r) == SetArchive(Attributes(e))
    ensures U16(r, 20) == U16(e, 20) && First(r) == first && Size(r) == size
  {
    Put32(Put16(e[11 := SetArchive(e[11])], 26, first), 28, size)
  }

  /** Setting the archive bit changes no other bit. */
  lemma SetArchiveBits(a: byte)
    ensures Bit(SetArchive(a), 1) <==> Bit(a, 1)
    ensures Bit(SetArchive(a), 8) <==> Bit(a, 8)
    ensures Bit(SetArchive(a), 0x10) <==> Bit(a, 0x10)
    ensures Bit(SetArchive(a), 0x40) <==> Bit(a, 0x40)
    ensures Bit(SetArchive(a), 0x80) <==> Bit(a, 0x80)
  {
    if !Bit(a, 0x20) {
      assert (a + 32) / 16 == a / 16 + 2 && (a + 32) / 8 == a / 8 + 4;
      assert (a + 32) / 64 == a / 64 && (a + 32) / 128 == a / 128;
    }
  }

  lemma SameName(e: Entry, r: Entry)
    requires r[..11] == e[..11]
    ensures ShortName(r) == ShortName(e) && r[0] == e[0]
    ensures forall p: bool :: Dot(r, p) == Dot(e, p)
  {
    hide Trim, Is83, Text;
    assert forall i :: 0 <= i < 11 ==> r[i] == r[..11][i] && e[i] == e[..11][i];
    assert BaseField(r) == r[..11][..8] == BaseField(e);
    assert ExtensionField(r) == r[..11][8..] == ExtensionField(e);
  }

  /** Rewriting keeps a live file entry live, a file, and under the same name. */
  lemma RewrittenUsed(e: Entry, first: nat, size: nat)
    requires first < 0x1_0000 && size < 0x1_0000_0000 && Classify(e) == Used
    ensures var r := Rewritten(e, first, size);
      && Classify(r) == Used && (DirectoryBit(r) <==> DirectoryBit(e)) && (ReadOnlyBit(r) <==> ReadOnlyBit(e))
      && ShortName(r) == ShortName(e)
  {
    hide ShortName, Rewritten, SetArchive;
    var r := Rewritten(e, first, size);
    SameName(e, r);
    SetArchiveBits(Attributes(e));
    assert Bit(LONG_NAME, 8);
  }

  function Erased(e: Entry): (r: Entry)
  {
    e[0 := DELETED]
  }
}
