/** Mapping one decoded patron record to an Alma SIS v2 `user` element: the
    scalar fields with their date defaults, the contact information built in
    three loops (addresses, emails, phones), the barcode identifiers and the
    optional note. The XML is an element tree, not serialised text. */
module AlmaUser {
  import opened PhpStrings
  import opened SifReader

  datatype Attribute = Attribute(name: string, value: string)

  /** An element added with a text value, or one added empty and then given
      attributes and children. */
  datatype Element =
    | TextElement(name: string, text: string)
    | Parent(name: string, attributes: seq<Attribute>, children: seq<Element>)

  /** The values the program takes from its mapping configuration. */
  datatype Mapping = Mapping(
    defaultPatronPurgeDate: string,
    defaultPatronExpiryDate: string,
    defaultAddressBeginDate: string,
    defaultAddressEndDate: string,
    userNoteType: string,
    userIdentifierIdType: string,
    userStatus: string,
    primaryEmailType: string,
    defaultEmailType: string,
    barcodeStatusTypes: map<string, string>,
    addressTypes: map<string, string>)

  /** A field read from a record; a missing key reads as PHP's null, which is
      the empty string wherever the converter uses it as text. */
  function Field(rec: Fields, key: string): string {
    if key in rec then rec[key] else ""
  }

  // ---------------------------------------------------------------------
  // Dates and code tables

  /** almaDate: the default when the date is empty, every '.' turned into
      '-', and a 'Z' appended. */
  function AlmaDate(date: string, default: string): (r: string)
    ensures var d := if date == "" then default else date;
      && |r| == |d| + 1
      && r[|d|] == 'Z'
      && forall i :: 0 <= i < |d| ==> r[i] == if d[i] == '.' then '-' else d[i]
    ensures forall i :: 0 <= i < |r| ==> r[i] != '.'
  {
    var d := if date == "" then default else date;
    StrReplaceCharPointwise('.', '-', d);
    StrReplace(".", "-", d) + "Z"
  }

  /** The date a Voyager export writes as 2024.01.15 becomes 2024-01-15Z. */
  lemma AlmaDateDotted(default: string)
    ensures AlmaDate("2024.01.15", default) == "2024-01-15Z"
  {
    var r := AlmaDate("2024.01.15", default);
    assert |r| == 11;
    assert forall i :: 0 <= i < 11 ==> r[i] == "2024-01-15Z"[i];
  }

  /** An empty date takes the default, converted the same way. */
  lemma AlmaDateDefault()
    ensures AlmaDate("", "2099.12.31") == "2099-12-31Z"
  {
    var r := AlmaDate("", "2099.12.31");
    assert |r| == 11;
    assert forall i :: 0 <= i < 11 ==> r[i] == "2099-12-31Z"[i];
  }

  /** lookupBarcodeStatus: the code-table entry for the key, else the
      table's "DEFAULT" entry, else PHP's null (empty text). */
  function LookupWithDefault(table: map<string, string>, key: string): (r: string)
    ensures key in table ==> r == table[key]
    ensures key !in table && "DEFAULT" in table ==> r == table["DEFAULT"]
    ensures r in table.Values || (r == "" && key !in table && "DEFAULT" !in table)
  {
    if key in table then table[key]
    else if "DEFAULT" in table then table["DEFAULT"]
    else ""
  }

  /** lookupAddrType as written: its fallback indexes the argument string
      with "DEFAULT" rather than the table, which PHP reads as offset 0, the
      first character of the argument. */
  function LookupAddrType(table: map<string, string>, addrType: string): (r: string)
    ensures addrType in table ==> r == table[addrType]
    ensures addrType !in table ==> r == addrType[..Min(1, |addrType|)]
  {
    if addrType in table then table[addrType]
    else if |addrType| > 0 then [addrType[0]]
    else ""
  }

  /** With no entry for type '1', the address type written is "1" itself and
      the table's "DEFAULT" entry is never consulted. */
  lemma LookupAddrTypeIgnoresDefault(table: map<string, string>)
    requires "1" !in table && "DEFAULT" in table && table["DEFAULT"] != "1"
    ensures LookupAddrType(table, "1") == "1"
    ensures LookupAddrType(table, "1") != LookupWithDefault(table, "1")
  {
  }

  // ---------------------------------------------------------------------
  // Address lines

  /** The address-line escaping as written: str_replace($line, '&', '&amp;')
      searches for the line inside the constant '&amp;' and replaces it by '&'. */
  function EscapeAddressLine(line: string): string {
    StrReplace(line, "&", "&amp;")
  }

  /** As written, every empty address line and every address line longer
      than five characters is replaced by the constant "&amp;": the line's own
      text never reaches the output. */
  lemma AddressLineLost(line: string)
    requires line == "" || |line| > 5
    ensures EscapeAddressLine(line) == "&amp;"
  {
    if line != "" {
      StrReplaceShortSubject(line, "&", "&amp;");
    }
  }

  /** The escaping evidently intended: every '&' in the line becomes "&amp;". */
  function EscapeAmpersands(line: string): string {
    StrReplace("&", "&amp;", line)
  }

  /** The intended escaping loses nothing: replacing "&amp;" by '&' again
      gives back the original line. */
  lemma {:induction false} EscapeAmpersandsRoundTrip(line: string)
    ensures StrReplace("&amp;", "&", EscapeAmpersands(line)) == line
    decreases |line|
  {
    if line != [] {
      var rest := line[1..];
      EscapeAmpersandsRoundTrip(rest);
      var escapedRest := EscapeAmpersands(rest);
      if line[0] == '&' {
        assert "&" <= line;
        assert EscapeAmpersands(line) == "&amp;" + escapedRest;
        assert ("&amp;" + escapedRest)[5..] == escapedRest;
      } else {
        assert !("&" <= line);
        assert EscapeAmpersands(line) == [line[0]] + escapedRest;
        assert !("&amp;" <= [line[0]] + escapedRest);
        assert ([line[0]] + escapedRest)[1..] == escapedRest;
      }
      assert [line[0]] + rest == line;
    }
  }

  // ---------------------------------------------------------------------
  // Selecting addresses by type

  /** The addresses whose address_type is `addrType`, in input order. */
  function OfType(addresses: seq<Fields>, addrType: string): (r: seq<Fields>)
    ensures |r| <= |addresses|
  {
    if addresses == [] then []
    else
      var last := addresses[|addresses| - 1];
      OfType(addresses[..|addresses| - 1], addrType) + (if Field(last, "address_type") == addrType then [last] else [])
  }

  /** An address is selected exactly when it is in the input with that type. */
  lemma {:induction false} OfTypeMembers(addresses: seq<Fields>, addrType: string, a: Fields)
    ensures a in OfType(addresses, addrType) <==> a in addresses && Field(a, "address_type") == addrType
  {
    if addresses != [] {
      var init := addresses[..|addresses| - 1];
      OfTypeMembers(init, addrType, a);
      assert addresses == init + [addresses[|addresses| - 1]];
    }
  }

  lemma OfTypeNext(addresses: seq<Fields>, i: nat, addrType: string)
    requires i < |addresses|
    ensures OfType(addresses[..i + 1], addrType)
      == OfType(addresses[..i], addrType)
         + (if Field(addresses[i], "address_type") == addrType then [addresses[i]] else [])
  {
    assert addresses[..i + 1][..i] == addresses[..i];
  }

  const PreferredTrue := [Attribute("preferred", "true")]

  // ---------------------------------------------------------------------
  // buildUserAddresses

  /** Which version of the two address operations with a finding the mapper
      runs: the address-line escaping and the address-type lookup as the
      converter writes them, or as evidently intended. */
  datatype Variant = AsWritten | Corrected

  /** The text written for one address line. */
  function AddressLineText(v: Variant, line: string): string {
    if v.Corrected? then EscapeAmpersands(line) else EscapeAddressLine(line)
  }

  /** The text written for an address type. */
  function AddressTypeText(v: Variant, table: map<string, string>, addrType: string): string {
    if v.Corrected? then LookupWithDefault(table, addrType) else LookupAddrType(table, addrType)
  }

  /** One `address` element; `preferred` marks the first one emitted. */
  function AddressElement(m: Mapping, v: Variant, a: Fields, preferred: bool): Element {
    Parent("address", if preferred then PreferredTrue else [], AddressChildren(m, v, a))
  }

  /** The children of an address: the five lines, the place, the dates and the type. */
  function AddressChildren(m: Mapping, v: Variant, a: Fields): seq<Element> {
    [
      TextElement("line1", AddressLineText(v, Field(a, "address_line_1"))),
      TextElement("line2", AddressLineText(v, Field(a, "address_line_2"))),
      TextElement("line3", AddressLineText(v, Field(a, "address_line_3"))),
      TextElement("line4", AddressLineText(v, Field(a, "address_line_4"))),
      TextElement("line5", AddressLineText(v, Field(a, "address_line_5"))),
      TextElement("city", Field(a, "city")),
      TextElement("state_province", Field(a, "state_code")),
      TextElement("postal_code", Field(a, "zipcode")),
      TextElement("country", Field(a, "country")),
      TextElement("start_date", AlmaDate(Field(a, "address_begin_date"), m.defaultAddressBeginDate)),
      TextElement("end_date", AlmaDate(Field(a, "address_end_date"), m.defaultAddressEndDate)),
      Parent("address_types", [], [TextElement("address_type", AddressTypeText(v, m.addressTypes, Field(a, "address_type")))])
    ]
  }

  /** As the converter runs, an address whose first line is empty or longer
      than five characters is written with line1 "&amp;", and an unmapped
      type '1' is written as "1" whatever the table's "DEFAULT" entry. */
  lemma AsWrittenAddressElement(m: Mapping, a: Fields, preferred: bool)
    requires Field(a, "address_line_1") == "" || |Field(a, "address_line_1")| > 5
    requires Field(a, "address_type") == "1" && "1" !in m.addressTypes
    ensures var e := AddressElement(m, AsWritten, a, preferred);
      && e.children[0] == TextElement("line1", "&amp;")
      && e.children[11] == Parent("address_types", [], [TextElement("address_type", "1")])
  {
    AddressLineLost(Field(a, "address_line_1"));
  }

  /** With the corrected operations, each address line can be read back from
      its element and the type falls back to the table's "DEFAULT" entry. */
  lemma CorrectedAddressElement(m: Mapping, a: Fields, preferred: bool)
    ensures var e := AddressElement(m, Corrected, a, preferred);
      && StrReplace("&amp;", "&", e.children[0].text) == Field(a, "address_line_1")
      && StrReplace("&amp;", "&", e.children[1].text) == Field(a, "address_line_2")
      && StrReplace("&amp;", "&", e.children[2].text) == Field(a, "address_line_3")
      && StrReplace("&amp;", "&", e.children[3].text) == Field(a, "address_line_4")
      && StrReplace("&amp;", "&", e.children[4].text) == Field(a, "address_line_5")
      && e.children[11].children[0].text == LookupWithDefault(m.addressTypes, Field(a, "address_type"))
  {
    EscapeAmpersandsRoundTrip(Field(a, "address_line_1"));
    EscapeAmpersandsRoundTrip(Field(a, "address_line_2"));
    EscapeAmpersandsRoundTrip(Field(a, "address_line_3"));
    EscapeAmpersandsRoundTrip(Field(a, "address_line_4"));
    EscapeAmpersandsRoundTrip(Field(a, "address_line_5"));
  }

  /** The address elements for the selected addresses: only the first is preferred. */
  function AddressElements(m: Mapping, v: Variant, selected: seq<Fields>): seq<Element> {
    seq(|selected|, i requires 0 <= i < |selected| => AddressElement(m, v, selected[i], i == 0))
  }

  lemma AddressElementsNext(m: Mapping, v: Variant, selected: seq<Fields>, a: Fields)
    ensures AddressElements(m, v, selected + [a]) == AddressElements(m, v, selected) + [AddressElement(m, v, a, selected == [])]
  {
  }

  /** The body of buildUserAddresses' loop for one address of type '1': the
      preferred attribute when the flag is not yet set, then the lines, the
      place, the dates and the address type. */
  method BuildAddress(m: Mapping, v: Variant, a: Fields, preferredSet: bool) returns (address: Element, nowSet: bool)
    ensures address == AddressElement(m, v, a, !preferredSet)
    ensures nowSet
  {
    var attributes: seq<Attribute> := [];
    nowSet := preferredSet;
    if !nowSet {
      attributes := PreferredTrue;
      nowSet := true;
    }
    var children := [
      TextElement("line1", AddressLineText(v, Field(a, "address_line_1"))),
      TextElement("line2", AddressLineText(v, Field(a, "address_line_2"))),
      TextElement("line3", AddressLineText(v, Field(a, "address_line_3"))),
      TextElement("line4", AddressLineText(v, Field(a, "address_line_4"))),
      TextElement("line5", AddressLineText(v, Field(a, "address_line_5")))];
    children := children + [
      TextElement("city", Field(a, "city")),
      TextElement("state_province", Field(a, "state_code")),
      TextElement("postal_code", Field(a, "zipcode")),
      TextElement("country", Field(a, "country")),
      TextElement("start_date", AlmaDate(Field(a, "address_begin_date"), m.defaultAddressBeginDate)),
      TextElement("end_date", AlmaDate(Field(a, "address_end_date"), m.defaultAddressEndDate))];
    children := children + [
      Parent("address_types", [], [TextElement("address_type", AddressTypeText(v, m.addressTypes, Field(a, "address_type")))])];
    address := Parent("address", attributes, children);
  }

  /** buildUserAddresses: one `address` per address of type '1', in input
      order, the first carrying preferred="true" through the loop's flag. */
  method BuildUserAddresses(m: Mapping, v: Variant, addresses: seq<Fields>) returns (e: Element)
    ensures e == Parent("addresses", [], AddressElements(m, v, OfType(addresses, "1")))
  {
    var children: seq<Element> := [];
    var preferredSet := false;
    var i := 0;
    while i < |addresses|
      invariant i <= |addresses|
      invariant children == AddressElements(m, v, OfType(addresses[..i], "1"))
      invariant preferredSet <==> children != []
    {
      var patronAddress := addresses[i];
      OfTypeNext(addresses, i, "1");
      if Field(patronAddress, "address_type") == "1" {
        ghost var selected := OfType(addresses[..i], "1");
        var address, nowSet := BuildAddress(m, v, patronAddress, preferredSet);
        AddressElementsNext(m, v, selected, patronAddress);
        assert preferredSet <==> selected != [];
        children := children + [address];
        preferredSet := nowSet;
      }
      i := i + 1;
    }
    assert addresses[..i] == addresses;
    e := Parent("addresses", [], children);
  }

  /** Of the address elements, only the first is preferred, and element i
      comes from the i-th address of type '1'. */
  lemma AddressElementsPreferred(m: Mapping, v: Variant, addresses: seq<Fields>)
    ensures var elements := AddressElements(m, v, OfType(addresses, "1"));
      && |elements| == |OfType(addresses, "1")|
      && forall i :: 0 <= i < |elements| ==>
           && elements[i] == AddressElement(m, v, OfType(addresses, "1")[i], i == 0)
           && elements[i].name == "address"
           && elements[i].attributes == (if i == 0 then PreferredTrue else [])
  {
  }

  // ---------------------------------------------------------------------
  // buildUserEmails

  /** One `email` for an address of type '3'; the first also gets the
      preferred flag and the primary email type, placed before the address. */
  function EmailElement(m: Mapping, a: Fields, first: bool): Element {
    if first then
      Parent("email", PreferredTrue, [
        Parent("email_types", [], [TextElement("email_type", m.primaryEmailType)]),
        TextElement("email_address", Field(a, "address_line_1"))])
    else
      Parent("email", [], [TextElement("email_address", Field(a, "address_line_1"))])
  }

  /** The blank email the schema requires when a patron has none. */
  function BlankEmail(m: Mapping): Element {
    Parent("email", [], [
      TextElement("email_address", ""),
      Parent("email_types", [], [TextElement("email_type", m.defaultEmailType)])])
  }

  function EmailElements(m: Mapping, selected: seq<Fields>): seq<Element> {
    seq(|selected|, i requires 0 <= i < |selected| => EmailElement(m, selected[i], i == 0))
  }

  lemma EmailElementsNext(m: Mapping, selected: seq<Fields>, a: Fields)
    ensures EmailElements(m, selected + [a]) == EmailElements(m, selected) + [EmailElement(m, a, selected == [])]
  {
  }

  /** The emails of a patron: one per address of type '3', or the blank one. */
  function UserEmails(m: Mapping, addresses: seq<Fields>): seq<Element> {
    var selected := OfType(addresses, "3");
    if selected == [] then [BlankEmail(m)] else EmailElements(m, selected)
  }

  /** The body of buildUserEmails' loop for one address of type '3': the
      first email sets the preferred flag and gets the primary email type
      before its address. The second test of the flag, after the address, is
      made when the flag is already set, so that branch never adds the
      default email type. */
  method BuildEmail(m: Mapping, a: Fields, preferredSet: bool) returns (email: Element, nowSet: bool)
    ensures email == EmailElement(m, a, !preferredSet)
    ensures nowSet
  {
    nowSet := preferredSet;
    var attributes: seq<Attribute> := [];
    var content: seq<Element> := [];
    if !nowSet {
      attributes := PreferredTrue;
      content := content + [Parent("email_types", [], [TextElement("email_type", m.primaryEmailType)])];
      nowSet := true;
    }
    content := content + [TextElement("email_address", Field(a, "address_line_1"))];
    if !nowSet {
      content := content + [Parent("email_types", [], [TextElement("email_type", m.defaultEmailType)])];
    }
    email := Parent("email", attributes, content);
  }

  /** buildUserEmails: one email per address of type '3', in input order,
      the first preferred and typed; the blank email when there is none. */
  method BuildUserEmails(m: Mapping, addresses: seq<Fields>) returns (e: Element)
    ensures e == Parent("emails", [], UserEmails(m, addresses))
  {
    var children: seq<Element> := [];
    var preferredSet := false;
    var emailSet := false;
    var i := 0;
    while i < |addresses|
      invariant i <= |addresses|
      invariant children == EmailElements(m, OfType(addresses[..i], "3"))
      invariant preferredSet == emailSet == (children != [])
    {
      var patronAddress := addresses[i];
      OfTypeNext(addresses, i, "3");
      if Field(patronAddress, "address_type") == "3" {
        EmailElementsNext(m, OfType(addresses[..i], "3"), patronAddress);
        emailSet := true;
        var email;
        email, preferredSet := BuildEmail(m, patronAddress, preferredSet);
        children := children + [email];
      }
      i := i + 1;
    }
    assert addresses[..i] == addresses;
    if !emailSet {
      children := children + [BlankEmail(m)];
    }
    e := Parent("emails", [], children);
  }

  /** A patron with no address of type '3' gets exactly one email, with an
      empty address and the default email type; otherwise one email per such
      address, and only the first is preferred and typed. */
  lemma UserEmailsShape(m: Mapping, addresses: seq<Fields>)
    ensures var emails := UserEmails(m, addresses);
      var selected := OfType(addresses, "3");
      && (selected == [] ==> emails == [BlankEmail(m)])
      && (selected != [] ==>
            && |emails| == |selected|
            && (forall i :: 0 <= i < |emails| ==>
                  && (emails[i].attributes == PreferredTrue <==> i == 0)
                  && (Parent("email_types", [], [TextElement("email_type", m.primaryEmailType)]) in emails[i].children <==> i == 0)))
  {
  }

  // ---------------------------------------------------------------------
  // buildUserPhones and addPhone

  function PhoneElement(kind: string, number: string): Element {
    Parent("phone", [], [
      TextElement("phone_number", number),
      Parent("phone_types", [], [TextElement("phone_type", kind)])])
  }

  /** addPhone: appends a phone of the given kind unless the number is empty. */
  function AddPhone(phones: seq<Element>, kind: string, number: string): (r: seq<Element>)
    ensures number == "" ==> r == phones
    ensures number != "" ==> |r| == |phones| + 1 && r[..|phones|] == phones && r[|phones|] == PhoneElement(kind, number)
  {
    if number != "" then phones + [PhoneElement(kind, number)] else phones
  }

  /** The phones one address contributes, primary, mobile, fax and general in that order. */
  function AddressPhones(phones: seq<Element>, a: Fields): seq<Element> {
    var withPrimary := AddPhone(phones, "primary", StripNonPhoneChars(Field(a, "phone_primary")));
    var withMobile := AddPhone(withPrimary, "mobile", StripNonPhoneChars(Field(a, "phone_mobile")));
    var withFax := AddPhone(withMobile, "fax", StripNonPhoneChars(Field(a, "phone_fax")));
    AddPhone(withFax, "general", StripNonPhoneChars(Field(a, "phone_other")))
  }

  /** The phones of every address, whatever its type, in input order. */
  function UserPhones(addresses: seq<Fields>): seq<Element> {
    if addresses == [] then []
    else AddressPhones(UserPhones(addresses[..|addresses| - 1]), addresses[|addresses| - 1])
  }

  /** buildUserPhones: for each address, four calls of addPhone with the
      cleaned primary, mobile, fax and other numbers. */
  method BuildUserPhones(addresses: seq<Fields>) returns (e: Element)
    ensures e == Parent("phones", [], UserPhones(addresses))
  {
    var children: seq<Element> := [];
    var i := 0;
    while i < |addresses|
      invariant i <= |addresses|
      invariant children == UserPhones(addresses[..i])
    {
      var patronAddress := addresses[i];
      assert addresses[..i + 1][..i] == addresses[..i];
      children := AddPhone(children, "primary", StripNonPhoneChars(Field(patronAddress, "phone_primary")));
      children := AddPhone(children, "mobile", StripNonPhoneChars(Field(patronAddress, "phone_mobile")));
      children := AddPhone(children, "fax", StripNonPhoneChars(Field(patronAddress, "phone_fax")));
      children := AddPhone(children, "general", StripNonPhoneChars(Field(patronAddress, "phone_other")));
      i := i + 1;
    }
    assert addresses[..i] == addresses;
    e := Parent("phones", [], children);
  }

  /** A phone number as it is written: never empty, and only digits, ',' and '.'. */
  predicate IsPhoneNumber(number: string) {
    number != [] && forall i :: 0 <= i < |number| ==> IsPhoneChar(number[i])
  }

  /** The rank of a phone kind in the order addPhone is called; 4 for any other text. */
  function KindRank(kind: string): nat {
    if kind == "primary" then 0 else if kind == "mobile" then 1 else if kind == "fax" then 2
    else if kind == "general" then 3 else 4
  }

  /** The number and the kind of a phone element. */
  function PhoneNumberOf(e: Element): string {
    if e.Parent? && |e.children| == 2 && e.children[0].TextElement? then e.children[0].text else ""
  }

  function PhoneKindOf(e: Element): string {
    if e.Parent? && |e.children| == 2 && e.children[1].Parent? && |e.children[1].children| == 1
       && e.children[1].children[0].TextElement?
    then e.children[1].children[0].text else ""
  }

  /** A well-formed phone: a cleaned, non-empty number and one of the four kinds. */
  predicate IsPhone(e: Element) {
    && IsPhoneNumber(PhoneNumberOf(e))
    && KindRank(PhoneKindOf(e)) < 4
    && e == PhoneElement(PhoneKindOf(e), PhoneNumberOf(e))
  }

  /** r extends phones by at most `bound` well-formed phones whose kinds are
      all ranked below `bound` and appear in strictly increasing rank. */
  predicate PhonesAppended(phones: seq<Element>, r: seq<Element>, bound: nat) {
    && |phones| <= |r| <= |phones| + bound
    && r[..|phones|] == phones
    && (forall i :: |phones| <= i < |r| ==> IsPhone(r[i]) && KindRank(PhoneKindOf(r[i])) < bound)
    && (forall i, j :: |phones| <= i < j < |r| ==> KindRank(PhoneKindOf(r[i])) < KindRank(PhoneKindOf(r[j])))
  }

  lemma AddPhoneAppends(phones: seq<Element>, r: seq<Element>, bound: nat, kind: string, raw: string)
    requires PhonesAppended(phones, r, bound) && KindRank(kind) == bound < 4
    ensures PhonesAppended(phones, AddPhone(r, kind, StripNonPhoneChars(raw)), bound + 1)
  {
    var number := StripNonPhoneChars(raw);
    var r' := AddPhone(r, kind, number);
    if number != "" {
      assert PhoneNumberOf(r'[|r|]) == number && PhoneKindOf(r'[|r|]) == kind;
      assert r'[..|phones|] == r[..|phones|];
      forall i | |phones| <= i < |r'|
        ensures IsPhone(r'[i]) && KindRank(PhoneKindOf(r'[i])) < bound + 1
      {
        if i < |r| { assert r'[i] == r[i]; }
      }
      forall i, j | |phones| <= i < j < |r'|
        ensures KindRank(PhoneKindOf(r'[i])) < KindRank(PhoneKindOf(r'[j]))
      {
        assert r'[i] == r[i];
        if j < |r| { assert r'[j] == r[j]; }
      }
    }
  }

  /** One address adds at most four phones, each with a cleaned, non-empty
      number, and their kinds follow the order primary, mobile, fax, general. */
  lemma AddressPhonesShape(phones: seq<Element>, a: Fields)
    ensures PhonesAppended(phones, AddressPhones(phones, a), 4)
  {
    assert PhonesAppended(phones, phones, 0);
    var withPrimary := AddPhone(phones, "primary", StripNonPhoneChars(Field(a, "phone_primary")));
    AddPhoneAppends(phones, phones, 0, "primary", Field(a, "phone_primary"));
    var withMobile := AddPhone(withPrimary, "mobile", StripNonPhoneChars(Field(a, "phone_mobile")));
    AddPhoneAppends(phones, withPrimary, 1, "mobile", Field(a, "phone_mobile"));
    var withFax := AddPhone(withMobile, "fax", StripNonPhoneChars(Field(a, "phone_fax")));
    AddPhoneAppends(phones, withMobile, 2, "fax", Field(a, "phone_fax"));
    AddPhoneAppends(phones, withFax, 3, "general", Field(a, "phone_other"));
  }

  /** Every phone of a patron is well formed, and there are at most four per address. */
  lemma {:induction false} UserPhonesShape(addresses: seq<Fields>)
    ensures |UserPhones(addresses)| <= 4 * |addresses|
    ensures forall i :: 0 <= i < |UserPhones(addresses)| ==> IsPhone(UserPhones(addresses)[i])
  {
    if addresses != [] {
      var init := addresses[..|addresses| - 1];
      UserPhonesShape(init);
      var before := UserPhones(init);
      AddressPhonesShape(before, addresses[|addresses| - 1]);
      var after := UserPhones(addresses);
      forall i | 0 <= i < |after| ensures IsPhone(after[i]) {
        if i < |before| { assert after[i] == after[..|before|][i]; }
      }
    }
  }

  // ---------------------------------------------------------------------
  // buildUserContactInfo and convertToAlmaSisXml

  function ContactInfoElement(m: Mapping, v: Variant, addresses: seq<Fields>): Element {
    Parent("contact_info", [], [
      Parent("addresses", [], AddressElements(m, v, OfType(addresses, "1"))),
      Parent("emails", [], UserEmails(m, addresses)),
      Parent("phones", [], UserPhones(addresses))])
  }

  /** buildUserContactInfo: addresses, then emails, then phones. */
  method BuildUserContactInfo(m: Mapping, v: Variant, addresses: seq<Fields>) returns (e: Element)
    ensures e == ContactInfoElement(m, v, addresses)
  {
    var addressList := BuildUserAddresses(m, v, addresses);
    var emails := BuildUserEmails(m, addresses);
    var phones := BuildUserPhones(addresses);
    e := Parent("contact_info", [], [addressList, emails, phones]);
  }

  function BarcodeKey(slot: nat): string
    requires 1 <= slot <= 2
  {
    if slot == 1 then "patron_barcode_1" else "patron_barcode_2"
  }

  function BarcodeStatusKey(slot: nat): string
    requires 1 <= slot <= 2
  {
    if slot == 1 then "barcode_status_1" else "barcode_status_2"
  }

  /** The test `$pbc !== ''`: a missing barcode field is PHP's null, which is
      not identical to the empty string, so only a present empty value fails. */
  predicate HasBarcode(rec: Fields, slot: nat)
    requires 1 <= slot <= 2
  {
    !(BarcodeKey(slot) in rec && rec[BarcodeKey(slot)] == "")
  }

  function IdentifierElement(m: Mapping, rec: Fields, slot: nat): Element
    requires 1 <= slot <= 2
  {
    Parent("user_identifier", [], [
      TextElement("id_type", m.userIdentifierIdType),
      TextElement("value", Field(rec, BarcodeKey(slot))),
      TextElement("status", LookupWithDefault(m.barcodeStatusTypes, Field(rec, BarcodeStatusKey(slot))))])
  }

  /** The identifiers of barcode slots 1 to n, in slot order. */
  function Identifiers(m: Mapping, rec: Fields, n: nat): seq<Element>
    requires n <= 2
  {
    if n == 0 then []
    else Identifiers(m, rec, n - 1) + (if HasBarcode(rec, n) then [IdentifierElement(m, rec, n)] else [])
  }

  function NoteElement(m: Mapping, note: string): Element {
    Parent("user_notes", [], [
      Parent("user_note", [], [
        TextElement("note_type", m.userNoteType),
        TextElement("note_text", note),
        TextElement("user_viewable", "false")])])
  }

  /** The `user` element convertToAlmaSisXml builds for a record. */
  function UserElement(m: Mapping, v: Variant, rec: PatronRecord): Element {
    var f := rec.fields;
    Parent("user", [], [
      TextElement("primary_id", Field(f, "patron_id")),
      TextElement("first_name", Field(f, "first_name")),
      TextElement("middle_name", Field(f, "middle_name")),
      TextElement("last_name", Field(f, "surname")),
      TextElement("expiry_date", AlmaDate(Field(f, "patron_expiration_date"), m.defaultPatronExpiryDate)),
      TextElement("purge_date", AlmaDate(Field(f, "patron_purge_date"), m.defaultPatronPurgeDate)),
      TextElement("status", m.userStatus),
      ContactInfoElement(m, v, rec.addresses),
      Parent("user_identifiers", [], Identifiers(m, f, 2))]
      + (if Field(f, "note") != "" then [NoteElement(m, Field(f, "note"))] else []))
  }

  /** convertToAlmaSisXml: the scalar fields, the contact information, the
      identifiers for barcode slots 1 and 2, and the note when there is one. */
  method ConvertToAlmaSisXml(m: Mapping, v: Variant, rec: PatronRecord) returns (user: Element)
    ensures user == UserElement(m, v, rec)
  {
    var f := rec.fields;
    var children := [
      TextElement("primary_id", Field(f, "patron_id")),
      TextElement("first_name", Field(f, "first_name")),
      TextElement("middle_name", Field(f, "middle_name")),
      TextElement("last_name", Field(f, "surname")),
      TextElement("expiry_date", AlmaDate(Field(f, "patron_expiration_date"), m.defaultPatronExpiryDate)),
      TextElement("purge_date", AlmaDate(Field(f, "patron_purge_date"), m.defaultPatronPurgeDate)),
      TextElement("status", m.userStatus)];
    var contactInfo := BuildUserContactInfo(m, v, rec.addresses);
    children := children + [contactInfo];
    var identifiers: seq<Element> := [];
    var i := 1;
    while i < 3
      invariant 1 <= i <= 3
      invariant identifiers == Identifiers(m, f, i - 1)
    {
      if HasBarcode(f, i) {
        identifiers := identifiers + [IdentifierElement(m, f, i)];
      }
      i := i + 1;
    }
    children := children + [Parent("user_identifiers", [], identifiers)];
    if |Field(f, "note")| > 0 {
      children := children + [NoteElement(m, Field(f, "note"))];
    }
    user := Parent("user", [], children);
  }

  /** A barcode slot yields an identifier exactly when its barcode is not an
      empty value; the identifier's status is the code-table entry for the
      slot's status, or the "DEFAULT" entry. */
  lemma IdentifiersShape(m: Mapping, rec: Fields)
    ensures var ids := Identifiers(m, rec, 2);
      && |ids| == (if HasBarcode(rec, 1) then 1 else 0) + (if HasBarcode(rec, 2) then 1 else 0)
      && forall slot :: 1 <= slot <= 2 && HasBarcode(rec, slot) ==>
           var status := Field(rec, BarcodeStatusKey(slot));
           TextElement("status", LookupWithDefault(m.barcodeStatusTypes, status)) in IdentifierElement(m, rec, slot).children
           && IdentifierElement(m, rec, slot) in ids
  {
    assert Identifiers(m, rec, 1) == if HasBarcode(rec, 1) then [IdentifierElement(m, rec, 1)] else [];
  }

  /** A `user_notes` child is present exactly when the note is non-empty, and
      then it is not viewable by the user. */
  lemma NotesShape(m: Mapping, v: Variant, rec: PatronRecord)
    ensures var user := UserElement(m, v, rec);
      && (|user.children| == 10 <==> Field(rec.fields, "note") != "")
      && (Field(rec.fields, "note") != "" ==>
            user.children[9] == NoteElement(m, Field(rec.fields, "note")))
      && (forall c :: c in user.children && c.name == "user_notes" ==> Field(rec.fields, "note") != "")
  {
    var children := UserElement(m, v, rec).children;
    forall i | 0 <= i < 9 ensures children[i].name != "user_notes" {
      var name := children[i].name;
      assert |name| != 10 || name[0] != 'u';
    }
  }

  /** getPatronNotes over a tail of whitespace leaves the note empty (for a
      conversion that keeps the empty string empty and a record with no
      field named "note"). */
  lemma BlankTailNoteField(rec: PatronRecord, line: string, pos: nat, conv: Converter)
    requires conv("") == ""
    requires "note" !in rec.fields
    requires forall i :: pos <= i < |line| ==> IsTrimmable(line[i])
    ensures Field(GetPatronNotes(rec, line, pos, conv).fields, "note") == ""
  {
    if pos < |line| {
      var slice := Substr(line, pos, NoteMaxLength);
      forall i | 0 <= i < |slice| ensures IsTrimmable(slice[i]) {
        assert slice[i] == line[pos + i];
      }
      RTrimBlank(slice);
    }
  }

  /** ... and so the user element has no `user_notes` child. */
  lemma BlankTailHasNoNote(m: Mapping, v: Variant, rec: PatronRecord, line: string, pos: nat, conv: Converter)
    requires conv("") == ""
    requires "note" !in rec.fields
    requires forall i :: pos <= i < |line| ==> IsTrimmable(line[i])
    ensures forall c :: c in UserElement(m, v, GetPatronNotes(rec, line, pos, conv)).children ==> c.name != "user_notes"
  {
    BlankTailNoteField(rec, line, pos, conv);
    NotesShape(m, v, GetPatronNotes(rec, line, pos, conv));
  }
}
