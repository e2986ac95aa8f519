/**
 * The text the letter derives from the employee's details: the first name
 * used in the PDF's file name (`getFirstName`) and the pronouns chosen by
 * the title (`getSubjectPronoun`, `getPossessivePronoun`, `getObjectPronoun`).
 */
module Names {
  import opened Wrappers
  import opened Text

  /** The characters `\s` matches in a JavaScript regular expression (white space and line terminators). */
  predicate IsRegexSpace(c: char)
  {
    c == '\t' || c == '\n' || c == '\U{B}' || c == '\U{C}' || c == '\r' || c == ' '
    || c == '\U{A0}' || c == '\U{1680}' || '\U{2000}' <= c <= '\U{200A}'
    || c == '\U{2028}' || c == '\U{2029}' || c == '\U{202F}' || c == '\U{205F}'
    || c == '\U{3000}' || c == '\U{FEFF}'
  }

  /** ASCII upper case to lower case; what the `i` flag identifies for the letters of the pattern. */
  function LowerAscii(c: char): char
  {
    if 'A' <= c <= 'Z' then (c as int - 'A' as int + 'a' as int) as char else c
  }

  /** s begins with the lower-case word, letters compared without regard to case. */
  predicate StartsWithIgnoringCase(s: string, word: string)
  {
    |word| <= |s| && forall i :: 0 <= i < |word| ==> LowerAscii(s[i]) == word[i]
  }

  /** The end of `<prefix>\.?` at the start of s, where the prefix is k characters long. */
  function AfterOptionalDot(s: string, k: nat): (e: nat)
    requires k <= |s|
    ensures k <= e <= |s| && e <= k + 1
    ensures e == k + 1 <==> k < |s| && s[k] == '.'
  {
    if k < |s| && s[k] == '.' then k + 1 else k
  }

  /**
   * The length of the match of `Mr\.?|Ms\.?|Mrs\.?` (flag i) at the start of s,
   * the alternatives tried from left to right; None when none matches.
   */
  function HonorificMatch(s: string): (r: Option<nat>)
    ensures r.Some? ==> 2 <= r.value <= |s| && r.value == AfterOptionalDot(s, 2)
    ensures r.None? <==> !StartsWithIgnoringCase(s, "mr") && !StartsWithIgnoringCase(s, "ms")
  {
    if StartsWithIgnoringCase(s, "mr") then Some(AfterOptionalDot(s, 2))
    else if StartsWithIgnoringCase(s, "ms") then Some(AfterOptionalDot(s, 2))
    else if StartsWithIgnoringCase(s, "mrs") then Some(AfterOptionalDot(s, 3))
    else None
  }

  /**
   * The third alternative never decides the match: every "Mrs" also begins
   * with "Mr", which is tried first, so only "Mr" and an optional dot are removed.
   */
  lemma MrsMatchesAsMr(s: string)
    requires StartsWithIgnoringCase(s, "mrs")
    ensures HonorificMatch(s) == Some(AfterOptionalDot(s, 2))
  {
    assert StartsWithIgnoringCase(s, "mr");
  }

  /** The length of the run of `\s` characters at the start of s. */
  function LeadingSpaces(s: string): (k: nat)
    ensures k <= |s|
    ensures forall i :: 0 <= i < k ==> IsRegexSpace(s[i])
    ensures k < |s| ==> !IsRegexSpace(s[k])
    decreases |s|
  {
    if s != [] && IsRegexSpace(s[0]) then 1 + LeadingSpaces(s[1..]) else 0
  }

  /**
   * `name.replace(/^(Mr\.?|Ms\.?|Mrs\.?)\s*\/i, '')`: without a leading
   * honorific the name is unchanged; with one, the honorific, an optional
   * dot and all white space after it are removed.
   */
  function StripHonorific(name: string): (rest: string)
    ensures |rest| <= |name| && rest == name[|name| - |rest|..]
    ensures HonorificMatch(name).None? ==> rest == name
    ensures HonorificMatch(name).Some? ==> |rest| <= |name| - 2 && (rest == [] || !IsRegexSpace(rest[0]))
    ensures HonorificMatch(name).Some? ==>
      var k := HonorificMatch(name).value;
      k <= |name| - |rest| && forall i :: k <= i < |name| - |rest| ==> IsRegexSpace(name[i])
  {
    match HonorificMatch(name)
    case None => name
    case Some(k) =>
      var afterTitle := name[k..];
      var rest := afterTitle[LeadingSpaces(afterTitle)..];
      assert rest == name[k + LeadingSpaces(afterTitle)..];
      rest
  }

  /** The default of `getFirstName` when the leading word is empty. */
  const DefaultFirstName: string := "Employee"

  /**
   * `getFirstName` on the employee name: the first piece of the stripped
   * name split at ' ', or "Employee" when that piece is empty. The result
   * is never empty and holds no space; it is the stripped name's text up to
   * its first space, and it is "Employee" whenever that text is empty.
   */
  function FirstName(employeeName: string): (first: string)
    ensures first != [] && ' ' !in first
    ensures var rest := StripHonorific(employeeName);
      (rest == [] || rest[0] == ' ') ==> first == DefaultFirstName
    ensures var rest := StripHonorific(employeeName);
      rest != [] && rest[0] != ' ' ==> first == rest[..IndexOf(rest, ' ')]
  {
    var first := Split(StripHonorific(employeeName), ' ')[0];
    assert ' ' !in DefaultFirstName;
    if first == [] then DefaultFirstName else first
  }

  /** A name that is empty or starts with a space yields the default first name. */
  lemma FirstNameDefault(employeeName: string)
    requires employeeName == [] || employeeName[0] == ' '
    ensures FirstName(employeeName) == DefaultFirstName
  {
    assert HonorificMatch(employeeName).None?;
  }

  /** A run of `\s` characters ends where a non-space begins. */
  lemma {:induction false} LeadingSpacesOfRun(gap: string, s: string)
    requires forall i :: 0 <= i < |gap| ==> IsRegexSpace(gap[i])
    requires s == [] || !IsRegexSpace(s[0])
    ensures LeadingSpaces(gap + s) == |gap|
    decreases |gap|
  {
    if gap == [] {
      assert gap + s == s;
    } else {
      assert (gap + s)[1..] == gap[1..] + s;
      LeadingSpacesOfRun(gap[1..], s);
    }
  }

  /**
   * A two-letter honorific ("Mr" or "Ms" in any case), an optional dot,
   * white space, a word and the rest of the name after a space: the first
   * name is that word. The white space may be empty, so the regular
   * expression also cuts "Mr" off a name that merely begins with those
   * letters ("Mrinal Sen" gives "inal", "Mrs Jane" gives "s").
   */
  lemma FirstNameAfterHonorific(title: string, dot: string, gap: string, word: string, tail: string)
    requires |title| == 2 && (StartsWithIgnoringCase(title, "mr") || StartsWithIgnoringCase(title, "ms"))
    requires dot == "" || dot == "."
    requires forall i :: 0 <= i < |gap| ==> IsRegexSpace(gap[i])
    requires word != [] && !IsRegexSpace(word[0]) && ' ' !in word
    requires dot == [] && gap == [] ==> word[0] != '.'
    requires tail == [] || tail[0] == ' '
    ensures FirstName(title + dot + gap + word + tail) == word
  {
    var rest := word + tail;
    var after := gap + rest;
    assert title + dot + gap + word + tail == title + dot + after;
    assert after[0] == if gap == [] then word[0] else gap[0];
    StripHonorificOfTitle(title, dot, after);
    LeadingSpacesOfRun(gap, rest);
    assert after[|gap|..] == rest;
    IndexOfAfter(word, tail, ' ');
    assert rest[0] == word[0];
  }

  /** After a two-letter honorific and an optional dot, the replacement removes exactly the leading white space. */
  lemma StripHonorificOfTitle(title: string, dot: string, after: string)
    requires |title| == 2 && (StartsWithIgnoringCase(title, "mr") || StartsWithIgnoringCase(title, "ms"))
    requires dot == "" || dot == "."
    requires after != [] && (dot == "" ==> after[0] != '.')
    ensures StripHonorific(title + dot + after) == after[LeadingSpaces(after)..]
  {
    var name := title + dot + after;
    var k := 2 + |dot|;
    assert name == title + (dot + after) && name[2..] == dot + after;
    assert name[k..] == after;
    assert StartsWithIgnoringCase(name, "mr") == StartsWithIgnoringCase(title, "mr");
    assert StartsWithIgnoringCase(name, "ms") == StartsWithIgnoringCase(title, "ms");
    assert AfterOptionalDot(name, 2) == k by {
      if dot == [] {
        assert name[2] == after[0];
      } else {
        assert name[2] == '.';
      }
    }
    assert HonorificMatch(name) == Some(k);
  }

  /** The seeded employee "Mr Manvendra Singh" is addressed as "Manvendra". */
  lemma FirstNameOfSeededEmployee()
    ensures FirstName("Mr Manvendra Singh") == "Manvendra"
  {
    assert "Mr Manvendra Singh" == "Mr" + "" + " " + "Manvendra" + " Singh";
    FirstNameAfterHonorific("Mr", "", " ", "Manvendra", " Singh");
  }

  /** The optional dot goes with the honorific: "Mr. John Smith" is addressed as "John". */
  lemma FirstNameAfterDottedTitle()
    ensures FirstName("Mr. John Smith") == "John"
  {
    assert "Mr. John Smith" == "Mr" + "." + " " + "John" + " Smith";
    FirstNameAfterHonorific("Mr", ".", " ", "John", " Smith");
  }

  /** No word boundary follows the honorific: "Mrinal Sen" loses its "Mr". */
  lemma FirstNameCutsNameBeginningWithMr()
    ensures FirstName("Mrinal Sen") == "inal"
  {
    assert "Mrinal Sen" == "Mr" + "" + "" + "inal" + " Sen";
    FirstNameAfterHonorific("Mr", "", "", "inal", " Sen");
  }

  /** "Mrs" is matched by its "Mr" alternative, leaving the "s". */
  lemma FirstNameOfMrs()
    ensures FirstName("Mrs Jane") == "s"
  {
    assert "Mrs Jane" == "Mr" + "" + "" + "s" + " Jane";
    FirstNameAfterHonorific("Mr", "", "", "s", " Jane");
  }

  /** `getSubjectPronoun`: "he" exactly when the title is "Mr", else "she". */
  function SubjectPronoun(title: string): (p: string)
    ensures p == "he" <==> title == "Mr"
    ensures p == "he" || p == "she"
  {
    if title == "Mr" then "he" else "she"
  }

  /** `getPossessivePronoun`: "his" exactly when the title is "Mr", else "her". */
  function PossessivePronoun(title: string): (p: string)
    ensures p == "his" <==> title == "Mr"
    ensures p == "his" || p == "her"
  {
    if title == "Mr" then "his" else "her"
  }

  /** `getObjectPronoun`: "him" exactly when the title is "Mr", else "her". */
  function ObjectPronoun(title: string): (p: string)
    ensures p == "him" <==> title == "Mr"
    ensures p == "him" || p == "her"
  {
    if title == "Mr" then "him" else "her"
  }
}
