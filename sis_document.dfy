/** Writing the SIS document for one input file. Each valid line's user
    element is serialised and appended to an intermediate file while a count
    of converted records is kept. The intermediate file is then closed with
    the root's end tag, and the final document is written as the root's start
    tag carrying the count, followed by a copy of the intermediate file. */
module SisDocument {
  import opened PhpStrings
  import opened SifReader
  import opened AlmaUser

  /** The DOM serialisation of a user element without an XML declaration. */
  type Serializer = Element -> string

  /** The first line of the final document. */
  function RootStartTag(count: nat): string {
    "<users total_record_count=\"" + NatToString(count) + "\">\r\n"
  }

  const RootEndTag := "</users>"

  /** The text of a file written chunk by chunk. */
  function Concat(chunks: seq<string>): string {
    if chunks == [] then [] else Concat(chunks[..|chunks| - 1]) + chunks[|chunks| - 1]
  }

  lemma ConcatAppend(chunks: seq<string>, chunk: string)
    ensures Concat(chunks + [chunk]) == Concat(chunks) + chunk
  {
    assert (chunks + [chunk])[..|chunks|] == chunks;
  }

  /** The running state of processInputFile and the intermediate file. */
  class SisWriter {
    /** $outputLineCount: the number of records converted so far. */
    var outputLineCount: nat
    /** The chunks written to the intermediate file, in order. */
    var tempFile: seq<string>
    /** Whether the closing root tag has been written and the file closed. */
    var tempClosed: bool

    /** Every converted record is one chunk of the intermediate file, and the
        end tag is one more once the file is closed. */
    ghost predicate Valid()
      reads this
    {
      |tempFile| == outputLineCount + (if tempClosed then 1 else 0)
      && (tempClosed ==> tempFile[|tempFile| - 1] == RootEndTag)
    }

    /** Opens an empty intermediate file with no records counted. */
    constructor ()
      ensures Valid()
      ensures outputLineCount == 0 && tempFile == [] && !tempClosed
    {
      outputLineCount := 0;
      tempFile := [];
      tempClosed := false;
    }

    /** Writes one serialised user (already followed by CR LF) and counts it. */
    method WriteUser(fragment: string)
      requires Valid() && !tempClosed
      modifies this
      ensures Valid() && !tempClosed
      ensures tempFile == old(tempFile) + [fragment]
      ensures outputLineCount == old(outputLineCount) + 1
    {
      tempFile := tempFile + [fragment];
      outputLineCount := outputLineCount + 1;
    }

    /** Writes the root's end tag and closes the intermediate file. */
    method CloseTempFile()
      requires Valid() && !tempClosed
      modifies this
      ensures Valid() && tempClosed
      ensures tempFile == old(tempFile) + [RootEndTag]
      ensures outputLineCount == old(outputLineCount)
    {
      tempFile := tempFile + [RootEndTag];
      tempClosed := true;
    }

    /** writeFinalOutputFile: the root's start tag with the final count, then
        the intermediate file copied chunk by chunk. */
    method WriteFinalOutputFile() returns (output: string)
      requires Valid() && tempClosed
      ensures output == RootStartTag(outputLineCount) + Concat(tempFile)
    {
      output := RootStartTag(outputLineCount);
      var i := 0;
      while i < |tempFile|
        invariant i <= |tempFile|
        invariant output == RootStartTag(outputLineCount) + Concat(tempFile[..i])
      {
        assert tempFile[..i + 1] == tempFile[..i] + [tempFile[i]];
        ConcatAppend(tempFile[..i], tempFile[i]);
        output := output + tempFile[i];
        i := i + 1;
      }
      assert tempFile[..i] == tempFile;
    }
  }

  /** The lines that pass isValidSIF, in input order. */
  function ValidLines(def: SifDefinition, lines: seq<string>): (r: seq<string>)
    ensures |r| <= |lines|
  {
    if lines == [] then []
    else
      var last := lines[|lines| - 1];
      ValidLines(def, lines[..|lines| - 1]) + (if IsValidSif(def, last) then [last] else [])
  }

  /** A line is kept exactly when it is in the input and valid. */
  lemma {:induction false} ValidLinesMembers(def: SifDefinition, lines: seq<string>, line: string)
    ensures line in ValidLines(def, lines) <==> line in lines && IsValidSif(def, line)
  {
    if lines != [] {
      var init := lines[..|lines| - 1];
      ValidLinesMembers(def, init, line);
      assert lines == init + [lines[|lines| - 1]];
    }
  }

  /** Filtering the valid lines again removes nothing. */
  lemma {:induction false} ValidLinesIdempotent(def: SifDefinition, lines: seq<string>)
    ensures ValidLines(def, ValidLines(def, lines)) == ValidLines(def, lines)
  {
    if lines != [] {
      var init := lines[..|lines| - 1];
      var last := lines[|lines| - 1];
      ValidLinesIdempotent(def, init);
      var v := ValidLines(def, init);
      if IsValidSif(def, last) {
        assert (v + [last])[..|v|] == v;
        assert ValidLines(def, v + [last]) == ValidLines(def, v) + [last];
      } else {
        assert ValidLines(def, lines) == v + [] == v;
      }
    }
  }

  /** The chunk processInputFile writes for one valid line. */
  function UserFragment(def: SifDefinition, m: Mapping, v: Variant, conv: Converter, serialize: Serializer, line: string): string {
    serialize(UserElement(m, v, PatronRecordOf(def, line, conv))) + "\r\n"
  }

  /** The conversion processInputFile applies to each valid line. */
  function Render(def: SifDefinition, m: Mapping, v: Variant, conv: Converter, serialize: Serializer): string -> string {
    line => UserFragment(def, m, v, conv, serialize, line)
  }

  /** The chunks written for the given valid lines, one per line, in order. */
  function UserFragments(render: string -> string, valid: seq<string>): seq<string> {
    seq(|valid|, i requires 0 <= i < |valid| => render(valid[i]))
  }

  lemma ValidLinesNext(def: SifDefinition, lines: seq<string>, i: nat)
    requires i < |lines|
    ensures ValidLines(def, lines[..i + 1])
      == ValidLines(def, lines[..i]) + (if IsValidSif(def, lines[i]) then [lines[i]] else [])
  {
    assert lines[..i + 1][..i] == lines[..i];
  }

  lemma UserFragmentsAppend(render: string -> string, valid: seq<string>, line: string)
    ensures UserFragments(render, valid + [line]) == UserFragments(render, valid) + [render(line)]
  {
    var longer := UserFragments(render, valid + [line]);
    var shorter := UserFragments(render, valid);
    forall i | 0 <= i < |valid| ensures longer[i] == shorter[i] {
      assert (valid + [line])[i] == valid[i];
    }
  }

  /** What the intermediate file holds after one more input line. */
  lemma UserFragmentsNext(def: SifDefinition, render: string -> string, lines: seq<string>, i: nat)
    requires i < |lines|
    ensures UserFragments(render, ValidLines(def, lines[..i + 1]))
      == UserFragments(render, ValidLines(def, lines[..i]))
         + (if IsValidSif(def, lines[i]) then [render(lines[i])] else [])
  {
    ValidLinesNext(def, lines, i);
    if IsValidSif(def, lines[i]) {
      UserFragmentsAppend(render, ValidLines(def, lines[..i]), lines[i]);
    }
  }

  /** The document written for the lines of one input file. */
  function FinalDocument(def: SifDefinition, m: Mapping, v: Variant, conv: Converter, serialize: Serializer, lines: seq<string>): string {
    var valid := ValidLines(def, lines);
    RootStartTag(|valid|) + Concat(UserFragments(Render(def, m, v, conv, serialize), valid)) + RootEndTag
  }

  /** The conversion of one valid line in processInputFile: read_sif,
      convertToAlmaSisXml, serialisation, and the CR LF that follows. */
  method ConvertLine(def: SifDefinition, m: Mapping, v: Variant, conv: Converter, serialize: Serializer, line: string)
    returns (fragment: string)
    ensures fragment == Render(def, m, v, conv, serialize)(line)
  {
    var patronRec := ReadSif(def, line, conv);
    var user := ConvertToAlmaSisXml(m, v, patronRec);
    fragment := serialize(user) + "\r\n";
  }

  /** One pass of processInputFile's loop: a line that passes isValidSIF is
      converted, written to the intermediate file and counted; any other line
      is skipped. */
  method ProcessLine(writer: SisWriter, def: SifDefinition, m: Mapping, v: Variant, conv: Converter, serialize: Serializer,
                     lines: seq<string>, i: nat)
    requires i < |lines|
    requires writer.Valid() && !writer.tempClosed
    requires writer.outputLineCount == |ValidLines(def, lines[..i])|
    requires writer.tempFile == UserFragments(Render(def, m, v, conv, serialize), ValidLines(def, lines[..i]))
    modifies writer
    ensures writer.Valid() && !writer.tempClosed
    ensures writer.outputLineCount == |ValidLines(def, lines[..i + 1])|
    ensures writer.tempFile == UserFragments(Render(def, m, v, conv, serialize), ValidLines(def, lines[..i + 1]))
  {
    var line := lines[i];
    ValidLinesNext(def, lines, i);
    UserFragmentsNext(def, Render(def, m, v, conv, serialize), lines, i);
    if IsValidSif(def, line) {
      var fragment := ConvertLine(def, m, v, conv, serialize, line);
      writer.WriteUser(fragment);
    }
  }

  /** processInputFile followed by writeFinalOutputFile, over the lines of
      the input file as fgets returns them. */
  method ProcessInputFile(def: SifDefinition, m: Mapping, v: Variant, conv: Converter, serialize: Serializer, lines: seq<string>)
    returns (output: string)
    ensures output == FinalDocument(def, m, v, conv, serialize, lines)
  {
    var writer := new SisWriter();
    var i := 0;
    while i < |lines|
      invariant i <= |lines|
      invariant writer.Valid() && !writer.tempClosed
      invariant writer.outputLineCount == |ValidLines(def, lines[..i])|
      invariant writer.tempFile == UserFragments(Render(def, m, v, conv, serialize), ValidLines(def, lines[..i]))
    {
      ProcessLine(writer, def, m, v, conv, serialize, lines, i);
      i := i + 1;
    }
    assert lines[..i] == lines;
    writer.CloseTempFile();
    output := writer.WriteFinalOutputFile();
    ConcatAppend(UserFragments(Render(def, m, v, conv, serialize), ValidLines(def, lines)), RootEndTag);
  }

  /** The root's count attribute reads back as the number of user fragments,
      which is the number of lines that passed validation. */
  lemma FinalDocumentCount(def: SifDefinition, m: Mapping, v: Variant, conv: Converter, serialize: Serializer, lines: seq<string>)
    ensures var valid := ValidLines(def, lines);
      var fragments := UserFragments(Render(def, m, v, conv, serialize), valid);
      var digits := NatToString(|valid|);
      && FinalDocument(def, m, v, conv, serialize, lines)
         == "<users total_record_count=\"" + digits + "\">\r\n" + Concat(fragments) + "</users>"
      && DecimalValue(digits) == |fragments| == |valid|
  {
    NatToStringRoundTrip(|ValidLines(def, lines)|);
  }

  /** Lines that fail validation leave no trace: the document for the input
      is the document for its valid lines alone. */
  lemma InvalidLinesIgnored(def: SifDefinition, m: Mapping, v: Variant, conv: Converter, serialize: Serializer, lines: seq<string>)
    ensures FinalDocument(def, m, v, conv, serialize, lines)
      == FinalDocument(def, m, v, conv, serialize, ValidLines(def, lines))
  {
    ValidLinesIdempotent(def, lines);
  }
}
