/** The title sanitiser of simple_transcriber.py: every character of a video
    title that is alphanumeric or one of space, hyphen and underscore is kept,
    every other character becomes an underscore. Nothing is truncated and no
    whitespace is collapsed. */
module TitleSanitizer {

  /** Stands for Python's `str.isalnum` on a one-character string. Python's
      test is Unicode-aware, so it is left abstract: every property below holds
      for any such test, or for any test that agrees with Python on ASCII. */
  type AlnumTest = char -> bool

  /** The ASCII letters and digits. */
  predicate AsciiAlnum(c: char) {
    'a' <= c <= 'z' || 'A' <= c <= 'Z' || '0' <= c <= '9'
  }

  /** On the ASCII range, Python's `str.isalnum` holds of letters and digits only. */
  ghost predicate AgreesOnAscii(isAlnum: AlnumTest) {
    forall c: char :: (c as int) < 128 ==> (isAlnum(c) <==> AsciiAlnum(c))
  }

  /** The characters the sanitiser keeps. The replacement '_' is one of them,
      and with Python's `isalnum` the ASCII ones are exactly the letters,
      digits, space, '-' and '_'. */
  predicate Allowed(isAlnum: AlnumTest, c: char)
    ensures c == '_' ==> Allowed(isAlnum, c)
    ensures AgreesOnAscii(isAlnum) && (c as int) < 128 ==>
      (Allowed(isAlnum, c) <==> AsciiAlnum(c) || c == ' ' || c == '-' || c == '_')
  {
    isAlnum(c) || c in " -_"
  }

  /** The per-character map: an allowed character is kept, any other becomes '_'. */
  function SafeChar(isAlnum: AlnumTest, c: char): (r: char)
    ensures Allowed(isAlnum, r)
    ensures r == c <==> Allowed(isAlnum, c)
    ensures r != c ==> r == '_'
  {
    if Allowed(isAlnum, c) then c else '_'
  }

  /** `"".join(c if c.isalnum() or c in " -_" else "_" for c in title)` */
  function SafeTitle(isAlnum: AlnumTest, title: string): (r: string)
    ensures |r| == |title|
  {
    if title == [] then [] else [SafeChar(isAlnum, title[0])] + SafeTitle(isAlnum, title[1..])
  }

  /** One output character per input character: position i of the result is
      the map applied to position i of the title. */
  lemma {:induction false} SafeTitleAt(isAlnum: AlnumTest, title: string, i: nat)
    requires i < |title|
    ensures SafeTitle(isAlnum, title)[i] == SafeChar(isAlnum, title[i])
  {
    if i > 0 {
      SafeTitleAt(isAlnum, title[1..], i - 1);
    }
  }

  /** Position-wise: an allowed character is copied unchanged, any other
      character becomes '_', and the length is that of the title. */
  lemma {:induction false} SafeTitlePositionwise(isAlnum: AlnumTest, title: string)
    ensures |SafeTitle(isAlnum, title)| == |title|
    ensures forall i :: 0 <= i < |title| && Allowed(isAlnum, title[i]) ==>
      SafeTitle(isAlnum, title)[i] == title[i]
    ensures forall i :: 0 <= i < |title| && !Allowed(isAlnum, title[i]) ==>
      SafeTitle(isAlnum, title)[i] == '_'
  {
    forall i | 0 <= i < |title| {
      SafeTitleAt(isAlnum, title, i);
    }
  }

  /** Every output character lies in the allow-set. */
  lemma {:induction false} SafeTitleAlphabet(isAlnum: AlnumTest, title: string)
    ensures forall c :: c in SafeTitle(isAlnum, title) ==> Allowed(isAlnum, c)
  {
    var r := SafeTitle(isAlnum, title);
    forall c | c in r ensures Allowed(isAlnum, c) {
      var i :| 0 <= i < |r| && r[i] == c;
      SafeTitleAt(isAlnum, title, i);
    }
  }

  /** With Python's `isalnum`, no ASCII character other than letters, digits,
      space, '-' and '_' survives: in particular no path separator, no drive
      colon, no '.', no '#' and no control character. */
  lemma {:induction false} NoReservedCharacters(isAlnum: AlnumTest, title: string)
    requires AgreesOnAscii(isAlnum)
    ensures forall c :: (c as int) < 128 && !AsciiAlnum(c) && c !in " -_" ==>
      c !in SafeTitle(isAlnum, title)
    ensures '/' !in SafeTitle(isAlnum, title) && '\\' !in SafeTitle(isAlnum, title)
    ensures ':' !in SafeTitle(isAlnum, title) && '#' !in SafeTitle(isAlnum, title)
    ensures '.' !in SafeTitle(isAlnum, title) && '\0' !in SafeTitle(isAlnum, title)
  {
    SafeTitleAlphabet(isAlnum, title);
  }

  /** The sanitiser leaves a title unchanged exactly when every character of
      the title is already in the allow-set. */
  lemma {:induction false} SafeTitleFixedPoint(isAlnum: AlnumTest, title: string)
    ensures SafeTitle(isAlnum, title) == title <==> forall c :: c in title ==> Allowed(isAlnum, c)
  {
    var r := SafeTitle(isAlnum, title);
    if forall c :: c in title ==> Allowed(isAlnum, c) {
      forall i | 0 <= i < |title| ensures r[i] == title[i] {
        SafeTitleAt(isAlnum, title, i);
      }
    }
    if r == title {
      SafeTitleAlphabet(isAlnum, title);
    }
  }

  /** Sanitising twice gives the same as sanitising once. */
  lemma {:induction false} SafeTitleIdempotent(isAlnum: AlnumTest, title: string)
    ensures SafeTitle(isAlnum, SafeTitle(isAlnum, title)) == SafeTitle(isAlnum, title)
  {
    SafeTitleAlphabet(isAlnum, title);
    SafeTitleFixedPoint(isAlnum, SafeTitle(isAlnum, title));
  }

  /** Sanitising a concatenation sanitises each part. */
  lemma {:induction false} SafeTitleAppend(isAlnum: AlnumTest, a: string, b: string)
    ensures SafeTitle(isAlnum, a + b) == SafeTitle(isAlnum, a) + SafeTitle(isAlnum, b)
  {
    if a != [] {
      assert (a + b)[0] == a[0] && (a + b)[1..] == a[1..] + b;
      SafeTitleAppend(isAlnum, a[1..], b);
    } else {
      assert a + b == b;
    }
  }

  /** The characters of the worked example below, under Python's `isalnum`. */
  lemma ExampleCharacters(isAlnum: AlnumTest)
    requires AgreesOnAscii(isAlnum)
    ensures isAlnum('M') && isAlnum('y') && isAlnum('V') && isAlnum('i') && isAlnum('d') && isAlnum('e') && isAlnum('o') && isAlnum('1') && isAlnum('T') && isAlnum('s') && isAlnum('t') && isAlnum('C') && isAlnum('l')
    ensures !isAlnum(' ') && !isAlnum('#') && !isAlnum(':') && !isAlnum('/')
  {
  }

  /** The worked example, checked position by position. */
  lemma SafeTitleExample(isAlnum: AlnumTest, title: string)
    requires AgreesOnAscii(isAlnum)
    requires title == "My Video #1: Test/Clip"
    ensures SafeTitle(isAlnum, title) == "My Video _1_ Test_Clip"
  {
    ExampleCharacters(isAlnum);
    SafeTitlePositionwise(isAlnum, title);
  }

  /** Sanitising is compatible with cutting the title at any position. */
  lemma SafeTitleSplit(isAlnum: AlnumTest, title: string, k: nat)
    requires k <= |title|
    ensures SafeTitle(isAlnum, title) == SafeTitle(isAlnum, title[..k]) + SafeTitle(isAlnum, title[k..])
  {
    assert title == title[..k] + title[k..];
    SafeTitleAppend(isAlnum, title[..k], title[k..]);
  }

  /** Neither truncation nor whitespace collapsing: every space of the title
      stays a space at the same position, so runs of spaces are kept, and the
      empty title stays empty. */
  lemma {:induction false} SafeTitleKeepsSpaces(isAlnum: AlnumTest, title: string)
    ensures forall i :: 0 <= i < |title| && title[i] == ' ' ==> SafeTitle(isAlnum, title)[i] == ' '
    ensures title == "" ==> SafeTitle(isAlnum, title) == ""
  {
    forall i | 0 <= i < |title| && title[i] == ' ' ensures SafeTitle(isAlnum, title)[i] == ' ' {
      SafeTitleAt(isAlnum, title, i);
    }
  }
}
