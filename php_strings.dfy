/** The PHP string primitives the converter relies on, with the semantics they
    have for the arguments it passes: rtrim, substr with non-negative offsets,
    str_replace with one search string, the phone-number preg_replace, and the
    decimal rendering of an integer in a string concatenation. */
module PhpStrings {

  function Min(a: int, b: int): int { if a <= b then a else b }

  /** The characters rtrim() removes when no character list is given:
      space, tab, line feed, carriage return, NUL and vertical tab. */
  predicate IsTrimmable(c: char) {
    c == ' ' || c == '\t' || c == '\n' || c == '\r' || c == '\0' || c == '\U{000B}'
  }

  /** rtrim($s): the trailing trimmable characters removed. */
  function RTrim(s: string): string {
    if s != [] && IsTrimmable(s[|s| - 1]) then RTrim(s[..|s| - 1]) else s
  }

  /** rtrim keeps the longest prefix of s after which only trimmable characters follow. */
  lemma {:induction false} RTrimShape(s: string)
    ensures RTrim(s) <= s
    ensures RTrim(s) == [] || !IsTrimmable(RTrim(s)[|RTrim(s)| - 1])
    ensures forall i :: |RTrim(s)| <= i < |s| ==> IsTrimmable(s[i])
  {
    if s != [] && IsTrimmable(s[|s| - 1]) {
      RTrimShape(s[..|s| - 1]);
    }
  }

  /** rtrim of a string made only of trimmable characters is empty. */
  lemma RTrimBlank(s: string)
    requires forall i :: 0 <= i < |s| ==> IsTrimmable(s[i])
    ensures RTrim(s) == []
  {
  }

  /** substr($s, $start, $length) for a non-negative start and length: the
      characters from start on, at most length of them, and none when start is
      at or beyond the end of s. */
  function Substr(s: string, start: nat, length: nat): string {
    if start >= |s| then [] else s[start..Min(start + length, |s|)]
  }

  /** substr's result has min(length, remaining) characters and is a prefix
      of the string from start on. */
  lemma SubstrShape(s: string, start: nat, length: nat)
    ensures |Substr(s, start, length)| == if start < |s| then Min(length, |s| - start) else 0
    ensures start <= |s| ==> Substr(s, start, length) <= s[start..]
  {
  }

  /** str_replace($search, $replace, $subject) for a single search string:
      a left-to-right scan replacing non-overlapping occurrences; an empty
      search string leaves the subject unchanged. */
  function StrReplace(search: string, replace: string, subject: string): string
    decreases |subject|
  {
    if search == [] || subject == [] then subject
    else if search <= subject then replace + StrReplace(search, replace, subject[|search|..])
    else [subject[0]] + StrReplace(search, replace, subject[1..])
  }

  /** Replacing one character by another works position by position. */
  lemma {:induction false} StrReplaceCharPointwise(c: char, d: char, s: string)
    ensures |StrReplace([c], [d], s)| == |s|
    ensures forall i :: 0 <= i < |s| ==> StrReplace([c], [d], s)[i] == if s[i] == c then d else s[i]
    decreases |s|
  {
    if s != [] {
      StrReplaceCharPointwise(c, d, s[1..]);
      if [c] <= s {
        assert s[0] == c;
      } else {
        assert s[0] != c;
      }
    }
  }

  /** A subject shorter than the search string contains no occurrence and comes back unchanged. */
  lemma {:induction false} StrReplaceShortSubject(search: string, replace: string, subject: string)
    requires |subject| < |search|
    ensures StrReplace(search, replace, subject) == subject
    decreases |subject|
  {
    if search != [] && subject != [] {
      assert !(search <= subject);
      StrReplaceShortSubject(search, replace, subject[1..]);
      assert [subject[0]] + subject[1..] == subject;
    }
  }

  /** The characters preg_replace("/[^0-9,.]/", "", $s) keeps. */
  predicate IsPhoneChar(c: char) {
    ('0' <= c <= '9') || c == ',' || c == '.'
  }

  /** preg_replace("/[^0-9,.]/", "", $s): every other character is deleted. */
  function StripNonPhoneChars(s: string): (r: string)
    ensures |r| <= |s|
    ensures forall i :: 0 <= i < |r| ==> IsPhoneChar(r[i])
  {
    if s == [] then []
    else StripNonPhoneChars(s[..|s| - 1]) + (if IsPhoneChar(s[|s| - 1]) then [s[|s| - 1]] else [])
  }

  /** Every kept character survives as often as it occurs in the input. */
  lemma {:induction false} StripNonPhoneCharsCounts(s: string, c: char)
    requires IsPhoneChar(c)
    ensures multiset(StripNonPhoneChars(s))[c] == multiset(s)[c]
  {
    if s != [] {
      var init, last := s[..|s| - 1], s[|s| - 1];
      StripNonPhoneCharsCounts(init, c);
      assert s == init + [last];
      assert multiset(s) == multiset(init) + multiset([last]);
    }
  }

  /** A number already made only of kept characters is left as it is. */
  lemma {:induction false} StripNonPhoneCharsKeeps(s: string)
    requires forall i :: 0 <= i < |s| ==> IsPhoneChar(s[i])
    ensures StripNonPhoneChars(s) == s
  {
    if s != [] {
      var init, last := s[..|s| - 1], s[|s| - 1];
      assert forall i :: 0 <= i < |init| ==> IsPhoneChar(init[i]);
      StripNonPhoneCharsKeeps(init);
      assert IsPhoneChar(last);
      calc {
        StripNonPhoneChars(s);
        StripNonPhoneChars(init) + [last];
        init + [last];
        s;
      }
    }
  }

  /** The clean-up works character by character and keeps the input's order:
      cleaning a concatenation is concatenating the cleaned parts, and a single
      character is kept exactly when it is a digit, ',' or '.'. */
  lemma {:induction false} StripNonPhoneCharsConcat(s: string, t: string)
    ensures StripNonPhoneChars(s + t) == StripNonPhoneChars(s) + StripNonPhoneChars(t)
    ensures |t| == 1 ==> StripNonPhoneChars(t) == if IsPhoneChar(t[0]) then t else []
    decreases |t|
  {
    if t != [] {
      var init, last := t[..|t| - 1], t[|t| - 1];
      StripNonPhoneCharsConcat(s, init);
      assert (s + t)[..|s + t| - 1] == s + init;
      assert t[..|t| - 1] == init;
    } else {
      assert s + t == s;
    }
  }

  /** One step of the clean-up over a prefix of a number. */
  lemma StripNonPhoneCharsStep(s: string, k: nat, r: string)
    requires k < |s| && StripNonPhoneChars(s[..k]) == r
    ensures StripNonPhoneChars(s[..k + 1]) == r + (if IsPhoneChar(s[k]) then [s[k]] else [])
  {
    assert s[..k + 1][..k] == s[..k];
  }

  /** The parentheses and the space around an area code are dropped. */
  lemma StripAreaCode()
    ensures StripNonPhoneChars("(555) ") == "555"
  {
    var s := "(555) ";
    assert s[..0] == [];
    StripNonPhoneCharsStep(s, 0, "");
    StripNonPhoneCharsStep(s, 1, "");
    StripNonPhoneCharsStep(s, 2, "5");
    StripNonPhoneCharsStep(s, 3, "55");
    StripNonPhoneCharsStep(s, 4, "555");
    StripNonPhoneCharsStep(s, 5, "555");
    assert s[..6] == s;
  }

  /** A hyphen inside a number is dropped. */
  lemma StripHyphen()
    ensures StripNonPhoneChars("123-4567") == "1234567"
  {
    var s := "123-4567";
    assert s[..0] == [];
    StripNonPhoneCharsStep(s, 0, "");
    StripNonPhoneCharsStep(s, 1, "1");
    StripNonPhoneCharsStep(s, 2, "12");
    StripNonPhoneCharsStep(s, 3, "123");
    StripNonPhoneCharsStep(s, 4, "123");
    StripNonPhoneCharsStep(s, 5, "1234");
    StripNonPhoneCharsStep(s, 6, "12345");
    StripNonPhoneCharsStep(s, 7, "123456");
    assert s[..8] == s;
  }

  /** An extension keeps its '.' and its digits and loses its letters. */
  lemma StripExtension()
    ensures StripNonPhoneChars(" ext.2") == ".2"
  {
    var s := " ext.2";
    assert s[..0] == [];
    StripNonPhoneCharsStep(s, 0, "");
    StripNonPhoneCharsStep(s, 1, "");
    StripNonPhoneCharsStep(s, 2, "");
    StripNonPhoneCharsStep(s, 3, "");
    StripNonPhoneCharsStep(s, 4, "");
    StripNonPhoneCharsStep(s, 5, ".");
    assert s[..6] == s;
  }

  /** A raw number with punctuation, spaces and letters keeps its digits and
      its '.', in order. */
  lemma StripNonPhoneCharsExample()
    ensures StripNonPhoneChars("(555) 123-4567 ext.2") == "5551234567.2"
  {
    StripAreaCode();
    StripHyphen();
    StripExtension();
    StripNonPhoneCharsConcat("(555) ", "123-4567");
    StripNonPhoneCharsConcat("(555) 123-4567", " ext.2");
    assert "(555) " + "123-4567" == "(555) 123-4567";
    assert "(555) 123-4567" + " ext.2" == "(555) 123-4567 ext.2";
  }

  predicate IsDigits(s: string) {
    forall i :: 0 <= i < |s| ==> '0' <= s[i] <= '9'
  }

  function DigitChar(d: nat): (c: char)
    requires d < 10
    ensures '0' <= c <= '9' && c as int - '0' as int == d
  {
    ('0' as int + d) as char
  }

  /** The decimal digits PHP writes for a non-negative integer in a string
      concatenation: at least one digit and no leading zero. */
  function NatToString(n: nat): (r: string)
    ensures |r| >= 1 && IsDigits(r)
    ensures |r| > 1 ==> r[0] != '0'
  {
    if n < 10 then [DigitChar(n)] else NatToString(n / 10) + [DigitChar(n % 10)]
  }

  /** The number a string of decimal digits denotes. */
  function DecimalValue(s: string): nat
    requires IsDigits(s)
  {
    if s == [] then 0 else DecimalValue(s[..|s| - 1]) * 10 + (s[|s| - 1] as int - '0' as int)
  }

  /** Reading back the digits written for n gives n. */
  lemma {:induction false} NatToStringRoundTrip(n: nat)
    ensures DecimalValue(NatToString(n)) == n
  {
    if n >= 10 {
      NatToStringRoundTrip(n / 10);
      var r := NatToString(n);
      assert r[..|r| - 1] == NatToString(n / 10);
    }
  }
}
