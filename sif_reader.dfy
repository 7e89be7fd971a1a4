/** Reading one line of a Voyager patron SIF file: the structural check that
    decides whether the line is converted at all, the fixed-width field
    decoder, and the assembly of the base record, its address blocks and the
    trailing note into one patron record. */
module SifReader {
  import opened PhpStrings

  /** One entry of a fixed-width layout: the field's name and its width in bytes. */
  datatype FieldSpec = FieldSpec(name: string, width: nat)

  type Layout = seq<FieldSpec>

  /** Field values by name, as the PHP associative arrays hold them. */
  type Fields = map<string, string>

  /** The record definition the program loads from its configuration: the
      base and address layouts and the two lengths the validator uses. */
  datatype SifDefinition = SifDefinition(
    baseRecordFields: Layout,
    addressRecordFields: Layout,
    baseRecordFieldsLength: nat,
    addressRecordFieldsLength: nat)

  /** The per-field character conversion (iconv from ISO-8859-1 to UTF-8). */
  type Converter = string -> string

  /** The two lengths agree with the layouts they describe. */
  predicate Consistent(def: SifDefinition) {
    && def.baseRecordFieldsLength == SumWidths(def.baseRecordFields)
    && def.addressRecordFieldsLength == SumWidths(def.addressRecordFields)
  }

  /** isValidSIF: the line is converted only when it is non-empty, holds at
      least one base record and one address block, and its byte at the end of
      the base record is an address count from 1 to 9. The count is a
      one-character string compared with the integers 1 and 9; only the
      characters '1' to '9' pass both comparisons. */
  predicate IsValidSif(def: SifDefinition, line: string): (valid: bool)
    ensures valid <==>
      && line != ""
      && |line| >= def.baseRecordFieldsLength + def.addressRecordFieldsLength
      && def.baseRecordFieldsLength < |line|
      && '1' <= line[def.baseRecordFieldsLength] <= '9'
  {
    if line == "" then false
    else if |line| < def.baseRecordFieldsLength + def.addressRecordFieldsLength then false
    else
      var addressCount := Substr(line, def.baseRecordFieldsLength, 1);
      SubstrShape(line, def.baseRecordFieldsLength, 1);
      |addressCount| == 1 && '1' <= addressCount[0] <= '9'
  }

  /** The total width of a layout. */
  function SumWidths(layout: Layout): nat {
    if layout == [] then 0 else SumWidths(layout[..|layout| - 1]) + layout[|layout| - 1].width
  }

  function Names(layout: Layout): set<string> {
    set k | 0 <= k < |layout| :: layout[k].name
  }

  /** Field k of the layout is not redefined by a later field of the same name. */
  predicate LastOccurrence(layout: Layout, k: int)
    requires 0 <= k < |layout|
  {
    forall j :: k < j < |layout| ==> layout[j].name != layout[k].name
  }

  /** The value of field k when the layout is laid down from `start`: its slice,
      with trailing whitespace removed, then converted. */
  function FieldValue(layout: Layout, data: string, start: nat, k: nat, conv: Converter): string
    requires k < |layout|
  {
    conv(RTrim(Substr(data, start + SumWidths(layout[..k]), layout[k].width)))
  }

  /** The fields decoded from `start`, later fields of a name overwriting earlier ones. */
  function DecodedFields(layout: Layout, data: string, start: nat, conv: Converter): Fields {
    if layout == [] then map[]
    else
      DecodedFields(layout[..|layout| - 1], data, start, conv)
        [layout[|layout| - 1].name := FieldValue(layout, data, start, |layout| - 1, conv)]
  }

  /** A field's value does not depend on the fields after it. */
  lemma FieldValuePrefix(layout: Layout, data: string, start: nat, m: nat, k: nat, conv: Converter)
    requires k < m <= |layout|
    ensures FieldValue(layout[..m], data, start, k, conv) == FieldValue(layout, data, start, k, conv)
  {
    assert layout[..m][..k] == layout[..k];
  }

  /** The decoded record has exactly one entry per layout name. */
  lemma {:induction false} DecodedFieldsKeys(layout: Layout, data: string, start: nat, conv: Converter)
    ensures DecodedFields(layout, data, start, conv).Keys == Names(layout)
  {
    if layout != [] {
      var init := layout[..|layout| - 1];
      DecodedFieldsKeys(init, data, start, conv);
      assert Names(layout) == Names(init) + {layout[|layout| - 1].name} by {
        forall x | x in Names(layout) ensures x in Names(init) + {layout[|layout| - 1].name} {
          var k :| 0 <= k < |layout| && layout[k].name == x;
          if k < |layout| - 1 { assert init[k].name == x; }
        }
        forall x | x in Names(init) ensures x in Names(layout) {
          var k :| 0 <= k < |init| && init[k].name == x;
          assert layout[k].name == x;
        }
      }
    }
  }

  /** The entry of field k is the slice at the sum of the widths before it. */
  lemma {:induction false} DecodedFieldsAt(layout: Layout, data: string, start: nat, k: nat, conv: Converter)
    requires k < |layout| && LastOccurrence(layout, k)
    ensures layout[k].name in DecodedFields(layout, data, start, conv)
    ensures DecodedFields(layout, data, start, conv)[layout[k].name] == FieldValue(layout, data, start, k, conv)
  {
    if k < |layout| - 1 {
      var init := layout[..|layout| - 1];
      assert LastOccurrence(init, k) by {
        forall j | k < j < |init| ensures init[j].name != init[k].name {
          assert layout[j].name != layout[k].name;
        }
      }
      DecodedFieldsAt(init, data, start, k, conv);
      FieldValuePrefix(layout, data, start, |layout| - 1, k, conv);
      assert layout[|layout| - 1].name != layout[k].name;
    }
  }

  /** Decoding one more field of the layout. */
  lemma DecodedFieldsNext(layout: Layout, data: string, start: nat, i: nat, conv: Converter)
    requires i < |layout|
    ensures SumWidths(layout[..i + 1]) == SumWidths(layout[..i]) + layout[i].width
    ensures DecodedFields(layout[..i + 1], data, start, conv)
      == DecodedFields(layout[..i], data, start, conv)[layout[i].name := FieldValue(layout, data, start, i, conv)]
  {
    assert layout[..i + 1][..i] == layout[..i];
    FieldValuePrefix(layout, data, start, i + 1, i, conv);
  }

  /** pc_fixed_width_substr (and the inner loop of getAddresses, which repeats
      it from a given offset): walks the layout, taking each field's slice at
      the running cursor and advancing the cursor by the field's full width. */
  method FixedWidthSubstr(layout: Layout, data: string, start: nat, conv: Converter)
    returns (fields: Fields, pos: nat)
    ensures pos == start + SumWidths(layout)
    ensures fields == DecodedFields(layout, data, start, conv)
  {
    fields := map[];
    pos := start;
    var i := 0;
    while i < |layout|
      invariant i <= |layout|
      invariant pos == start + SumWidths(layout[..i])
      invariant fields == DecodedFields(layout[..i], data, start, conv)
    {
      var field := layout[i];
      var value := conv(RTrim(Substr(data, pos, field.width)));
      DecodedFieldsNext(layout, data, start, i, conv);
      fields := fields[field.name := value];
      pos := pos + field.width;
      i := i + 1;
    }
    assert layout[..i] == layout;
  }

  /** The address count getAddresses reads: the one byte at `pos` compared as
      a number with the loop index, so a digit gives its value and anything
      else (or nothing, past the end of the line) gives no addresses. */
  function AddressCount(line: string, pos: nat): (count: nat)
    ensures count <= 9
    ensures count > 0 ==> pos < |line| && line[pos] as int - '0' as int == count
    ensures pos < |line| && '1' <= line[pos] <= '9' ==> count > 0
  {
    if pos < |line| && '0' <= line[pos] <= '9' then line[pos] as int - '0' as int else 0
  }

  /** Where block i starts when blocks of `width` bytes are laid back to back
      from `first`: each block starts where the one before it ends. */
  function BlockStart(first: nat, i: nat, width: nat): nat {
    if i == 0 then first else BlockStart(first, i - 1, width) + width
  }

  /** Block i starts i block widths after the first. */
  lemma {:induction false} BlockStartOffset(first: nat, i: nat, width: nat)
    ensures BlockStart(first, i, width) == first + i * width
  {
    if i > 0 {
      BlockStartOffset(first, i - 1, width);
      assert (i - 1) * width + width == i * width;
    }
  }

  /** `count` address blocks laid back to back from `first`. */
  function AddressBlocks(layout: Layout, line: string, first: nat, count: nat, conv: Converter): (blocks: seq<Fields>)
    ensures |blocks| == count
  {
    seq(count, i requires 0 <= i < count => DecodedFields(layout, line, BlockStart(first, i, SumWidths(layout)), conv))
  }

  /** One more block extends the blocks by the decoding at the next block start. */
  lemma AddressBlocksNext(layout: Layout, line: string, first: nat, count: nat, conv: Converter)
    ensures AddressBlocks(layout, line, first, count + 1, conv)
      == AddressBlocks(layout, line, first, count, conv)
         + [DecodedFields(layout, line, BlockStart(first, count, SumWidths(layout)), conv)]
  {
  }

  /** getAddresses: reads the count at the end of the base record and decodes
      that many address blocks, the first right after the count byte and each
      further one right after the block before it. */
  method GetAddresses(layout: Layout, line: string, basePos: nat, conv: Converter)
    returns (addresses: seq<Fields>, pos: nat)
    ensures addresses == AddressBlocks(layout, line, basePos + 1, AddressCount(line, basePos), conv)
    ensures pos == BlockStart(basePos + 1, AddressCount(line, basePos), SumWidths(layout))
  {
    var count := AddressCount(line, basePos);
    addresses := [];
    pos := basePos + 1;
    var i := 1;
    while i <= count
      invariant 1 <= i <= count + 1
      invariant addresses == AddressBlocks(layout, line, basePos + 1, i - 1, conv)
      invariant pos == BlockStart(basePos + 1, i - 1, SumWidths(layout))
    {
      var block, next := FixedWidthSubstr(layout, line, pos, conv);
      AddressBlocksNext(layout, line, basePos + 1, i - 1, conv);
      assert next == BlockStart(basePos + 1, i, SumWidths(layout));
      addresses := addresses + [block];
      pos := next;
      i := i + 1;
    }
    assert i - 1 == count;
  }

  /** One decoded patron record: the base fields (and, once present, the
      note under the key "note") and the address blocks in line order. */
  datatype PatronRecord = PatronRecord(fields: Fields, addresses: seq<Fields>)

  const NoteMaxLength: nat := 1000

  /** The note text: the bytes from `pos`, at most 1000 of them, right-trimmed. */
  function NoteText(line: string, pos: nat): string {
    RTrim(Substr(line, pos, NoteMaxLength))
  }

  /** The note is at most 1000 bytes from `pos` on, without trailing whitespace. */
  lemma NoteTextShape(line: string, pos: nat)
    requires pos < |line|
    ensures |NoteText(line, pos)| <= NoteMaxLength
    ensures NoteText(line, pos) <= line[pos..]
    ensures NoteText(line, pos) == [] || !IsTrimmable(NoteText(line, pos)[|NoteText(line, pos)| - 1])
  {
    var slice := Substr(line, pos, NoteMaxLength);
    SubstrShape(line, pos, NoteMaxLength);
    RTrimShape(slice);
  }

  /** getPatronNotes: when bytes remain after the last address block, the
      record gains a "note"; otherwise it is returned unchanged. */
  function GetPatronNotes(rec: PatronRecord, line: string, pos: nat, conv: Converter): PatronRecord {
    if pos < |line| then
      PatronRecord(rec.fields["note" := conv(NoteText(line, pos))], rec.addresses)
    else rec
  }

  /** The addresses are kept; the note is added exactly when bytes remain. */
  lemma GetPatronNotesShape(rec: PatronRecord, line: string, pos: nat, conv: Converter)
    ensures GetPatronNotes(rec, line, pos, conv).addresses == rec.addresses
    ensures pos >= |line| ==> GetPatronNotes(rec, line, pos, conv) == rec
    ensures pos < |line| ==>
      ("note" in GetPatronNotes(rec, line, pos, conv).fields
       && GetPatronNotes(rec, line, pos, conv).fields["note"] == conv(NoteText(line, pos)))
  {
  }

  /** getPatronNotes touches no key other than "note". */
  lemma GetPatronNotesFrame(rec: PatronRecord, line: string, pos: nat, conv: Converter, key: string)
    requires key != "note"
    ensures var r := GetPatronNotes(rec, line, pos, conv);
      && (key in r.fields <==> key in rec.fields)
      && (key in rec.fields ==> r.fields[key] == rec.fields[key])
  {
  }

  /** The record read_sif returns for a line. */
  function PatronRecordOf(def: SifDefinition, line: string, conv: Converter): (rec: PatronRecord)
    ensures |rec.addresses| == AddressCount(line, SumWidths(def.baseRecordFields))
  {
    var baseEnd := SumWidths(def.baseRecordFields);
    var count := AddressCount(line, baseEnd);
    var addresses := AddressBlocks(def.addressRecordFields, line, baseEnd + 1, count, conv);
    var notePos := BlockStart(baseEnd + 1, count, SumWidths(def.addressRecordFields));
    GetPatronNotes(PatronRecord(DecodedFields(def.baseRecordFields, line, 0, conv), addresses), line, notePos, conv)
  }

  /** The record of a line is assembled from its three parts. */
  lemma PatronRecordOfParts(def: SifDefinition, line: string, conv: Converter,
                            base: Fields, baseEnd: nat, addresses: seq<Fields>, pos: nat)
    requires base == DecodedFields(def.baseRecordFields, line, 0, conv)
    requires baseEnd == SumWidths(def.baseRecordFields)
    requires addresses == AddressBlocks(def.addressRecordFields, line, baseEnd + 1, AddressCount(line, baseEnd), conv)
    requires pos == BlockStart(baseEnd + 1, AddressCount(line, baseEnd), SumWidths(def.addressRecordFields))
    ensures PatronRecordOf(def, line, conv) == GetPatronNotes(PatronRecord(base, addresses), line, pos, conv)
  {
    var parts := PatronRecord(DecodedFields(def.baseRecordFields, line, 0, conv),
      AddressBlocks(def.addressRecordFields, line, baseEnd + 1, AddressCount(line, baseEnd), conv));
    assert PatronRecord(base, addresses) == parts;
    assert PatronRecordOf(def, line, conv) == GetPatronNotes(parts, line, pos, conv);
  }

  /** read_sif: base record from offset 0, then the addresses, then the note. */
  method ReadSif(def: SifDefinition, line: string, conv: Converter) returns (rec: PatronRecord)
    ensures rec == PatronRecordOf(def, line, conv)
    ensures |rec.addresses| == AddressCount(line, SumWidths(def.baseRecordFields))
  {
    var base, baseEnd := FixedWidthSubstr(def.baseRecordFields, line, 0, conv);
    var addresses, pos := GetAddresses(def.addressRecordFields, line, baseEnd, conv);
    rec := GetPatronNotes(PatronRecord(base, addresses), line, pos, conv);
    PatronRecordOfParts(def, line, conv, base, baseEnd, addresses, pos);
  }

  /** With layouts that match the configured lengths, a line the validator
      accepts yields exactly as many addresses as its count digit says, 1 to 9. */
  lemma ValidLineAddressCount(def: SifDefinition, line: string, conv: Converter)
    requires Consistent(def) && IsValidSif(def, line)
    ensures var n := |PatronRecordOf(def, line, conv).addresses|;
      1 <= n <= 9 && n == line[def.baseRecordFieldsLength] as int - '0' as int
  {
  }
}
