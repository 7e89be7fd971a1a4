# Voyager SIF to Alma SIS v2 converter: a Dafny model

The converter reads a Voyager patron SIF file, one fixed-width record per line. It writes an Alma SIS v2 XML document with one `user` element per valid line, under a `users` root whose `total_record_count` attribute gives the number of users. This project models its core in Dafny:

- **PhpStrings** (`php_strings.dfy`): the PHP primitives the converter relies on, with their PHP semantics.
  - `rtrim` with the default character list
  - `substr` with a start past the end of the string
  - single-search `str_replace`, including an empty search string
  - the phone-number `preg_replace("/[^0-9,.]/", "", …)`
  - the decimal text of an integer in a string concatenation
- **SifReader** (`sif_reader.dfy`): reading one line.
  - `isValidSIF`
  - the fixed-width decoder `pc_fixed_width_substr`
  - `getAddresses`: the one-digit address count, then that many address blocks laid back to back
  - `getPatronNotes`: the trailing note of at most 1000 bytes
  - `read_sif`, which chains the three
- **AlmaUser** (`alma_user.dfy`): `convertToAlmaSisXml` and its helpers.
  - `almaDate`, `lookupBarcodeStatus`, `lookupAddrType`
  - `buildUserContactInfo`, `buildUserAddresses`, `buildUserEmails`, `buildUserPhones`, `addPhone`
  - The XML is modelled as an element tree (`Element`), not as text.
  - Address lines and address types are written either as the source writes them (`AsWritten`) or as evidently intended (`Corrected`); see "## Findings".
- **SisDocument** (`sis_document.dfy`): the count-and-compose logic of `processInputFile` and `writeFinalOutputFile`.
  - The class `SisWriter` holds the running count of converted records and the intermediate file as a sequence of written chunks.
  - `ProcessInputFile` runs the loop over the input lines.
  - Its result is proved to be the root start tag with the count, then one serialised user per valid line, then the root end tag.

**Outside effects as parameters.** Two effects become parameters:

- the ISO-8859-1 to UTF-8 conversion `iconv`: `conv: string -> string`
- the DOM serialisation of a user element: `serialize: Element -> string`

The values the program takes from its configuration file are fields of `SifDefinition` and `Mapping`:

- the two record layouts and their lengths
- the default dates, the note, identifier and status types, and the email types
- the barcode-status and address-type code tables

**The loops.** The loops of the source are Dafny methods with loop invariants. Each is proved equal to a specification function:

- `FixedWidthSubstr` to `DecodedFields`
- `GetAddresses` to `AddressBlocks`
- `BuildUserAddresses` to `AddressElements`
- `BuildUserEmails` to `UserEmails`
- `BuildUserPhones` to `UserPhones`
- `ProcessInputFile` to `FinalDocument`

The lemmas then state what the source promises about those functions.

## Model

All source paths are in `sis/voyager/SIF2SISV2.php`.

| member | source | states |
|---|---|---|
| PhpStrings.RTrimShape | sis/voyager/SIF2SISV2.php:86 | rtrim's result is a prefix of its argument that does not end in space, tab, CR, LF, NUL or vertical tab, and everything it removed is such a character |
| PhpStrings.RTrimBlank | sis/voyager/SIF2SISV2.php:136 | rtrim of a string made only of whitespace is empty |
| PhpStrings.SubstrShape | sis/voyager/SIF2SISV2.php:63 | substr returns min(length, remaining) characters of s from start on, and nothing when start is at or past the end |
| PhpStrings.StrReplaceCharPointwise | sis/voyager/SIF2SISV2.php:339 | replacing one character by another keeps the length and changes exactly the positions holding that character |
| PhpStrings.StrReplaceShortSubject | sis/voyager/SIF2SISV2.php:376 | str_replace returns a subject shorter than the search string unchanged |
| PhpStrings.StripNonPhoneChars | sis/voyager/SIF2SISV2.php:448 | the phone-number clean-up never lengthens a number and leaves only digits, ',' and '.' |
| PhpStrings.StripNonPhoneCharsCounts | sis/voyager/SIF2SISV2.php:448 | every digit, ',' and '.' of the raw number survives as often as it occurs |
| PhpStrings.StripNonPhoneCharsKeeps | sis/voyager/SIF2SISV2.php:448 | a number already made of digits, ',' and '.' is left unchanged |
| PhpStrings.StripNonPhoneCharsConcat | sis/voyager/SIF2SISV2.php:448 | the clean-up keeps the input's order: cleaning a concatenation concatenates the cleaned parts, and one character is kept exactly when it is a digit, ',' or '.' |
| PhpStrings.StripNonPhoneCharsExample | sis/voyager/SIF2SISV2.php:448 | "(555) 123-4567 ext.2" is cleaned to "5551234567.2" |
| PhpStrings.NatToString | sis/voyager/SIF2SISV2.php:498 | the record count is written as at least one decimal digit, with no leading zero |
| PhpStrings.NatToStringRoundTrip | sis/voyager/SIF2SISV2.php:498 | reading the written digits back as a decimal number gives the count |
| SifReader.IsValidSif | sis/voyager/SIF2SISV2.php:50-73 | a line is valid exactly when it is non-empty, at least as long as a base record plus one address block, and its byte after the base record is one of '1' to '9' |
| SifReader.FieldValuePrefix | sis/voyager/SIF2SISV2.php:86-89 | a field's value depends only on the fields laid out before it |
| SifReader.DecodedFieldsKeys | sis/voyager/SIF2SISV2.php:83-88 | the decoded record has exactly the layout's field names as keys |
| SifReader.DecodedFieldsAt | sis/voyager/SIF2SISV2.php:83-89 | the value of field k is the converted, right-trimmed slice of its width at the sum of the widths before it, unless a later field reuses the name |
| SifReader.DecodedFieldsNext | sis/voyager/SIF2SISV2.php:86-89 | one more loop step advances the cursor by the field's width and adds the field's slice under its name |
| SifReader.FixedWidthSubstr | sis/voyager/SIF2SISV2.php:80-92 | pc_fixed_width_substr returns the decoded record of the layout from the start offset, and the start offset plus the layout's total width |
| SifReader.AddressCount | sis/voyager/SIF2SISV2.php:114-117 | the address loop runs at most 9 times, a positive count is the digit's value, and a digit '1' to '9' gives a positive count |
| SifReader.BlockStartOffset | sis/voyager/SIF2SISV2.php:115-122 | address block i starts i block widths after the byte following the count |
| SifReader.AddressBlocksNext | sis/voyager/SIF2SISV2.php:117-124 | one more pass of the address loop appends the block decoded at the next block start |
| SifReader.GetAddresses | sis/voyager/SIF2SISV2.php:111-126 | getAddresses returns as many address blocks as the count byte says, laid back to back after it, and the offset after the last block |
| SifReader.NoteTextShape | sis/voyager/SIF2SISV2.php:136 | the note is at most 1000 bytes, a prefix of the rest of the line, and does not end in whitespace |
| SifReader.GetPatronNotesShape | sis/voyager/SIF2SISV2.php:133-142 | when bytes remain after the addresses, the record gains the converted note under "note"; otherwise it is unchanged; the addresses never change |
| SifReader.GetPatronNotesFrame | sis/voyager/SIF2SISV2.php:138-140 | getPatronNotes adds, removes or changes no key other than "note" |
| SifReader.PatronRecordOf | sis/voyager/SIF2SISV2.php:98-104 | the record read from a line holds exactly as many addresses as the count byte after the base record says |
| SifReader.PatronRecordOfParts | sis/voyager/SIF2SISV2.php:98-104 | the record of a line is its base fields and address blocks, completed by getPatronNotes from the offset after the last block |
| SifReader.ReadSif | sis/voyager/SIF2SISV2.php:98-104 | read_sif returns the base record, the address blocks and the note of the line, and the number of addresses is the count digit's value |
| SifReader.ValidLineAddressCount | sis/voyager/SIF2SISV2.php:63-64 | with layouts matching the configured lengths, a valid line yields 1 to 9 addresses, exactly the count digit's value |
| AlmaUser.AlmaDate | sis/voyager/SIF2SISV2.php:331-340 | almaDate uses the default for an empty date, turns every '.' into '-', keeps every other character, and appends 'Z' |
| AlmaUser.AlmaDateDotted | sis/voyager/SIF2SISV2.php:339 | 2024.01.15 becomes 2024-01-15Z |
| AlmaUser.AlmaDateDefault | sis/voyager/SIF2SISV2.php:332-334 | an empty date with default 2099.12.31 becomes 2099-12-31Z |
| AlmaUser.LookupWithDefault | sis/voyager/SIF2SISV2.php:310-314 | lookupBarcodeStatus returns the table entry for the key, else the "DEFAULT" entry, else empty, so any non-empty result comes from the table |
| AlmaUser.LookupAddrType | sis/voyager/SIF2SISV2.php:320-324 | lookupAddrType as written returns the table entry for the type, else the type's first character |
| AlmaUser.LookupAddrTypeIgnoresDefault | sis/voyager/SIF2SISV2.php:323 | as written, an unmapped type '1' is written as "1" even when the table has a different "DEFAULT" entry |
| AlmaUser.AddressLineLost | sis/voyager/SIF2SISV2.php:373-377 | as written, an empty address line or one longer than 5 characters becomes "&amp;" |
| AlmaUser.EscapeAmpersandsRoundTrip | sis/voyager/SIF2SISV2.php:373-377 | the intended escaping of '&' as "&amp;" loses nothing: unescaping gives the line back |
| AlmaUser.OfTypeMembers | sis/voyager/SIF2SISV2.php:365 | an address is selected exactly when it is one of the patron's addresses and has the given address_type |
| AlmaUser.OfTypeNext | sis/voyager/SIF2SISV2.php:405-406 | one more address extends the selection by that address exactly when its type matches |
| AlmaUser.AddressElementsNext | sis/voyager/SIF2SISV2.php:364-371 | one more selected address adds one element, preferred exactly when it is the first |
| AlmaUser.AsWrittenAddressElement | sis/voyager/SIF2SISV2.php:373-388 | as the converter runs, an address whose first line is empty or longer than five characters gets line1 "&amp;", and an unmapped type '1' is written as "1" |
| AlmaUser.CorrectedAddressElement | sis/voyager/SIF2SISV2.php:373-388 | with the corrected operations, each of the five address lines can be read back from its element and the type falls back to the table's "DEFAULT" entry |
| AlmaUser.BuildAddress | sis/voyager/SIF2SISV2.php:366-389 | the loop body builds the address element, preferred exactly when the flag was not yet set, and the flag is set afterwards; lines and type are written by the chosen variant |
| AlmaUser.BuildUserAddresses | sis/voyager/SIF2SISV2.php:357-391 | buildUserAddresses builds one address per address of type '1', in input order, only the first preferred |
| AlmaUser.AddressElementsPreferred | sis/voyager/SIF2SISV2.php:364-389 | there is one address element per type-'1' address, element i is built from the i-th such address, and exactly the first carries preferred="true" |
| AlmaUser.EmailElementsNext | sis/voyager/SIF2SISV2.php:405-425 | one more type-'3' address adds one email, the first-email form exactly when it is the first |
| AlmaUser.BuildEmail | sis/voyager/SIF2SISV2.php:408-424 | the loop body builds the first-email form (preferred, primary type before the address) exactly when the flag was not set; the later default-type branch adds nothing |
| AlmaUser.BuildUserEmails | sis/voyager/SIF2SISV2.php:397-435 | buildUserEmails builds one email per type-'3' address in input order, or the single blank email when there is none |
| AlmaUser.UserEmailsShape | sis/voyager/SIF2SISV2.php:405-434 | no type-'3' address gives exactly one blank email; otherwise one email per such address, and exactly the first is preferred and has the primary email type |
| AlmaUser.AddPhone | sis/voyager/SIF2SISV2.php:460-468 | addPhone adds nothing for an empty number, and otherwise appends one phone with that number and type, keeping the earlier phones |
| AlmaUser.BuildUserPhones | sis/voyager/SIF2SISV2.php:441-453 | buildUserPhones calls addPhone with the cleaned primary, mobile, fax and other numbers of every address, in order |
| AlmaUser.AddPhoneAppends | sis/voyager/SIF2SISV2.php:460-468 | addPhone with a cleaned number keeps the phones so far and adds at most one well-formed phone of the next kind |
| AlmaUser.AddressPhonesShape | sis/voyager/SIF2SISV2.php:448-451 | one address adds at most four phones, each with a non-empty cleaned number, in the kind order primary, mobile, fax, general |
| AlmaUser.UserPhonesShape | sis/voyager/SIF2SISV2.php:441-453 | a patron has at most four phones per address and every phone is well formed |
| AlmaUser.BuildUserContactInfo | sis/voyager/SIF2SISV2.php:346-351 | contact_info holds addresses, then emails, then phones |
| AlmaUser.ConvertToAlmaSisXml | sis/voyager/SIF2SISV2.php:148-296 | convertToAlmaSisXml builds the user element: the scalar fields, the dates, the status, the contact information, the identifiers, and the note when there is one |
| AlmaUser.IdentifiersShape | sis/voyager/SIF2SISV2.php:258-271 | the user_identifiers hold one identifier per barcode slot whose barcode is not a present empty value, and its status is looked up with the "DEFAULT" fallback |
| AlmaUser.NotesShape | sis/voyager/SIF2SISV2.php:279-286 | the user has a user_notes child exactly when the note is non-empty; it is the last child and not user-viewable |
| AlmaUser.BlankTailNoteField | sis/voyager/SIF2SISV2.php:133-142 | a blank tail after the addresses gives an empty note |
| AlmaUser.BlankTailHasNoNote | sis/voyager/SIF2SISV2.php:279 | a blank tail after the addresses gives a user with no user_notes child |
| SisDocument.ConcatAppend | sis/voyager/SIF2SISV2.php:503-505 | copying one more chunk appends it to the copied text |
| SisDocument.SisWriter.constructor | sis/voyager/SIF2SISV2.php:525-532 | the run starts with a count of 0 and an empty, open intermediate file |
| SisDocument.SisWriter.WriteUser | sis/voyager/SIF2SISV2.php:565-568 | writing a user appends its chunk and adds one to the count, keeping one chunk per counted record |
| SisDocument.SisWriter.CloseTempFile | sis/voyager/SIF2SISV2.php:585 | closing appends the root end tag and leaves the count unchanged |
| SisDocument.SisWriter.WriteFinalOutputFile | sis/voyager/SIF2SISV2.php:474-516 | the final file is the root start tag carrying the count, then a copy of the whole intermediate file |
| SisDocument.ValidLinesMembers | sis/voyager/SIF2SISV2.php:544-547 | a line is converted exactly when it is an input line and passes isValidSIF |
| SisDocument.ValidLinesIdempotent | sis/voyager/SIF2SISV2.php:547 | filtering the valid lines again removes nothing |
| SisDocument.ValidLinesNext | sis/voyager/SIF2SISV2.php:544-547 | reading one more line adds it to the valid lines exactly when it is valid |
| SisDocument.UserFragmentsAppend | sis/voyager/SIF2SISV2.php:565 | one more valid line appends its rendered chunk |
| SisDocument.UserFragmentsNext | sis/voyager/SIF2SISV2.php:544-565 | after one more input line, the intermediate file gains that line's chunk exactly when the line is valid |
| SisDocument.ConvertLine | sis/voyager/SIF2SISV2.php:550-565 | a valid line's chunk is the serialised user element of the record read from it, followed by CR LF |
| SisDocument.ProcessLine | sis/voyager/SIF2SISV2.php:544-582 | after each input line, the count is the number of valid lines so far and the intermediate file holds their chunks in order |
| SisDocument.ProcessInputFile | sis/voyager/SIF2SISV2.php:522-599 | the output is the root start tag with the number of valid lines, then one chunk per valid line in input order, then the root end tag |
| SisDocument.FinalDocumentCount | sis/voyager/SIF2SISV2.php:498 | the total_record_count attribute reads back as the number of user chunks, which is the number of valid lines |
| SisDocument.InvalidLinesIgnored | sis/voyager/SIF2SISV2.php:547 | invalid lines leave no trace: the document equals the one for the valid lines alone |

## Left out

**Program-level parts not modelled**
- The command line, `showUsage`, configuration loading and `getDefaultDateOffset`: they read files and the clock. Their results are the fields of `SifDefinition` and `Mapping`.
- File I/O:
  - opening, reading and deleting the input and temporary files, and the error when the input file cannot be opened
  - Input lines are given as a sequence of strings, each as `fgets` returns it, with its line terminator.
  - The intermediate file is a sequence of the chunks written to it.
- Console output:
  - the progress and total messages
  - the pretty-printed preview of the first ten users (`prettyPrint`)
  - the validator's diagnostics
  - `HandleXmlError`
- Character conversion and serialisation:
  - `iconv` is the parameter `conv`.
  - SimpleXML and DOM serialisation, with the XML declaration stripped by the DOM round trip, is the parameter `serialize`.
  - Entity handling inside `addChild` values is therefore not modelled.
- SimpleXML objects:
  - The SimpleXML objects the source mutates are modelled as the element values they end up holding.
  - Each `addChild` or `addAttribute` sequence is one `Element` value.

**Differences from PHP semantics**
- OfType: the address-type test is string equality. PHP's loose `== '1'` would also accept numeric strings such as "01" or "1.0".
- AddressCount: a non-digit count byte gives no addresses, as PHP 7's numeric comparison does. PHP 8 compares such a byte with the loop index as a string: a byte below '1' (a space, '+', '.', NUL) also gives no addresses, but a byte above '9' (a letter) never ends the loop. Either case needs layouts that disagree with the configured lengths, because `isValidSif` only admits '1' to '9'.
- LookupAddrType: the fallback follows PHP 7, reading offset 0 of the argument with a warning. PHP 8 raises an error instead.
- ReadSif: the addresses sit beside the base fields, not under an `addresses` key of the same array. A base layout that itself names a field `addresses` is not modelled.
- Strings: a Dafny `char` stands for one byte of a PHP string, so `|line|` is `strlen($line)` and the note's 1000 characters are 1000 bytes. The UTF-8 text `conv` returns is likewise handled as a sequence of byte-sized characters. The characters the converter inspects ('.', '&', digits, ',') are all ASCII, so nothing depends on the difference.
- ProcessInputFile: the integer count is unbounded. PHP integers do not overflow at any realistic record count.

## Findings

| source | as written | input that shows it | evidently intended | confidence | as-written member | corrected member |
|---|---|---|---|---|---|---|
| sis/voyager/SIF2SISV2.php:373-377 | `str_replace($line, '&', '&amp;')` searches for the address line inside the constant "&amp;" | address_line_1 = "12 Main Street" (or an empty line) is written as line1 "&amp;" | `str_replace('&', '&amp;', $line)`: escape each '&' of the line | high (not executed) | AlmaUser.AddressLineLost | AlmaUser.EscapeAmpersandsRoundTrip |
| sis/voyager/SIF2SISV2.php:323 | the fallback reads `$addrType["DEFAULT"]`, an offset of the argument string, not `$addressTypes["DEFAULT"]` | address_type "1" with no "1" entry and a "DEFAULT" entry "HOME" is written as "1" | fall back to the table's "DEFAULT" entry, as lookupBarcodeStatus does | high (not executed) | AlmaUser.LookupAddrTypeIgnoresDefault | AlmaUser.LookupWithDefault |

The mapper and the writer take a `Variant` that selects how address lines are escaped and address types looked up:

- `AsWritten` runs the converter as it is written: `EscapeAddressLine` (`str_replace($line, '&', '&amp;')`) and `LookupAddrType`. `ConvertToAlmaSisXml` and `ProcessInputFile` with `AsWritten` describe the program's actual output.
- `Corrected` runs the evidently intended operations: `EscapeAmpersands` and `LookupWithDefault`.

Every other lemma about the mapper and the document holds for both variants.
