/** helpers/core_helpers.py: date-prefix normalisation, camelCase labels, and
    the choice of a resource's describing field. The date parser
    (`dateutil.parser.parse`) and the CodeableConcept reader are parameters. */
module CoreHelpers {
  import opened Wrappers
  import opened Text
  import opened JsonValue

  // ---------------------------------------------------------------------
  // format_date

  /** A calendar date as `datetime` holds it. */
  datatype DateParts = Date(year: nat, month: nat, day: nat)
  type Date = d: DateParts | 1 <= d.year <= 9999 && 1 <= d.month <= 12 && 1 <= d.day <= 31
    witness Date(1, 1, 1)

  /** `strftime('%Y-%m-%d')` as the C library on Linux renders it: the year
      without padding, month and day on two digits. */
  function DateText(d: Date): string
  {
    NatToString(d.year) + "-" + PadNat(d.month, 2) + "-" + PadNat(d.day, 2)
  }

  /** Number of leading ASCII digits of `s`. */
  function LeadingDigits(s: string): (n: nat)
    ensures n <= |s|
    ensures AllDigits(s[..n])
    ensures n < |s| ==> !IsDigit(s[n])
  {
    if s != [] && IsDigit(s[0]) then
      var n := 1 + LeadingDigits(s[1..]);
      assert s[..n] == [s[0]] + s[1..][..n - 1];
      n
    else 0
  }

  /** The regular expression `^[\d]{2,4}-[\d]{1,2}` matches `s` with `k`
      leading digits. */
  predicate DatePrefixAt(s: string, k: nat)
  {
    2 <= k <= 4 && k + 1 < |s| && AllDigits(s[..k]) && s[k] == '-' && IsDigit(s[k + 1])
  }

  /** `re.match(r"^[\d]{2,4}-[\d]{1,2}", s)` succeeds: the run of leading
      digits has 2 to 4 characters and is followed by `-` and a digit. */
  predicate HasDatePrefix(s: string)
  {
    var n := LeadingDigits(s);
    2 <= n <= 4 && n + 1 < |s| && s[n] == '-' && IsDigit(s[n + 1])
  }

  /** The greedy count of leading digits decides the match: the pattern
      matches with some count of digits iff it matches with all of them. */
  lemma DatePrefixExact(s: string)
    ensures HasDatePrefix(s) <==> exists k: nat :: DatePrefixAt(s, k)
  {
    var n := LeadingDigits(s);
    if HasDatePrefix(s) {
      assert DatePrefixAt(s, n);
    }
    forall k: nat | DatePrefixAt(s, k)
      ensures HasDatePrefix(s)
    {
    }
  }

  /** format_date: an input whose prefix looks like a date and that the
      parser accepts becomes `" " + YYYY-MM-DD` (the date icon is empty);
      anything else, including a parse failure, comes back unchanged. */
  function FormatDate(s: string, parse: string -> Option<Date>): (r: string)
    ensures !HasDatePrefix(s) ==> r == s
    ensures HasDatePrefix(s) && parse(s).None? ==> r == s
    ensures HasDatePrefix(s) && parse(s).Some? ==> r == " " + DateText(parse(s).value)
  {
    if HasDatePrefix(s) then
      match parse(s)
      case Some(d) => " " + DateText(d)
      case None => s
    else s
  }

  lemma {:induction false} FourDigits(n: nat)
    requires 1000 <= n <= 9999
    ensures |NatToString(n)| == 4
  {
    var a := n / 10;
    var b := a / 10;
    var c := b / 10;
    assert 100 <= a <= 999 && 10 <= b <= 99 && 1 <= c <= 9;
    assert |NatToString(c)| == 1;
    assert |NatToString(b)| == 2;
    assert |NatToString(a)| == 3;
  }

  /** Slicing a `YYYY-MM-DD` text back into its three numbers. */
  lemma DateSlices(y: string, m: string, d: string)
    requires |y| == 4 && |m| == 2 && |d| == 2
    ensures var r := " " + y + "-" + m + "-" + d;
      |r| == 11 && r[0] == ' ' && r[5] == '-' && r[8] == '-'
      && r[1..5] == y && r[6..8] == m && r[9..11] == d
  {
  }

  /** `r` is a space and ten characters `YYYY-MM-DD` whose three digit
      fields read back as `year`, `month` and `day`. */
  predicate DateShape(r: string, year: nat, month: nat, day: nat)
  {
    && |r| == 11 && r[0] == ' ' && r[5] == '-' && r[8] == '-'
    && AllDigits(r[1..5]) && AllDigits(r[6..8]) && AllDigits(r[9..11])
    && ParseNat(r[1..5]) == year && ParseNat(r[6..8]) == month
    && ParseNat(r[9..11]) == day
  }

  /** The three digit fields of a `YYYY-MM-DD` text read back as the
      numbers they were written from. */
  lemma DateFields(y: string, m: string, d: string)
    requires |y| == 4 && |m| == 2 && |d| == 2 && AllDigits(y) && AllDigits(m) && AllDigits(d)
    ensures DateShape(" " + y + "-" + m + "-" + d, ParseNat(y), ParseNat(m), ParseNat(d))
  {
    DateSlices(y, m, d);
  }

  /** The text of a date with a four-digit year reads back field by
      field. */
  lemma DateTextFields(d: Date)
    requires d.year >= 1000
    ensures DateShape(" " + DateText(d), d.year, d.month, d.day)
  {
    var y, m, dd := NatToString(d.year), PadNat(d.month, 2), PadNat(d.day, 2);
    FourDigits(d.year);
    TwoDigitPad(d.month);
    TwoDigitPad(d.day);
    ParseNatToString(d.year);
    assert " " + DateText(d) == " " + y + "-" + m + "-" + dd;
    DateFields(y, m, dd);
  }

  /** A normalised date (with a four-digit year) is a space followed by ten
      characters `YYYY-MM-DD`, and the three numbers read back give the
      parsed date. */
  lemma DateTextRoundTrip(s: string, parse: string -> Option<Date>)
    requires HasDatePrefix(s) && parse(s).Some? && parse(s).value.year >= 1000
    ensures DateShape(FormatDate(s, parse), parse(s).value.year, parse(s).value.month, parse(s).value.day)
  {
    DateTextFields(parse(s).value);
  }

  // ---------------------------------------------------------------------
  // split_camel_case

  /** `re.sub('([A-Z]+)', r' \1', s)`: a space before every maximal run of
      capitals. `afterUpper` says whether the character before `s` was a
      capital. */
  function BreakCapitalRuns(s: string, afterUpper: bool): string
  {
    if s == [] then []
    else
      (if IsUpper(s[0]) && !afterUpper then " " + [s[0]] else [s[0]])
      + BreakCapitalRuns(s[1..], IsUpper(s[0]))
  }

  /** `re.sub('([A-Z][a-z]+)', r' \1', s)`: a space before every capital
      that is followed by a lower-case letter. */
  function BreakCapitalWords(s: string): string
  {
    if s == [] then []
    else
      (if IsUpper(s[0]) && |s| > 1 && IsLower(s[1]) then " " + [s[0]] else [s[0]])
      + BreakCapitalWords(s[1..])
  }

  /** The characters of `s` other than plain spaces. */
  function Unspaced(s: string): string
  {
    if s == [] then [] else (if s[0] == ' ' then [] else [s[0]]) + Unspaced(s[1..])
  }

  lemma {:induction false} UnspacedAppend(a: string, b: string)
    ensures Unspaced(a + b) == Unspaced(a) + Unspaced(b)
  {
    if a != [] {
      var h := if a[0] == ' ' then [] else [a[0]];
      assert (a + b)[0] == a[0];
      assert (a + b)[1..] == a[1..] + b;
      UnspacedAppend(a[1..], b);
      calc {
        Unspaced(a + b);
        h + Unspaced(a[1..] + b);
        h + (Unspaced(a[1..]) + Unspaced(b));
        (h + Unspaced(a[1..])) + Unspaced(b);
      }
    } else {
      assert a + b == b;
    }
  }

  /** Length of the word at the front of `s` (up to the first whitespace). */
  function WordLength(s: string): (n: nat)
    ensures n <= |s|
    ensures forall i :: 0 <= i < n ==> !IsSpace(s[i])
    ensures n < |s| ==> IsSpace(s[n])
  {
    if s == [] || IsSpace(s[0]) then 0 else 1 + WordLength(s[1..])
  }

  /** `s.split()`: the maximal runs of non-whitespace characters, in order. */
  function Words(s: string): (r: seq<string>)
    ensures forall k :: 0 <= k < |r| ==> r[k] != [] && forall i :: 0 <= i < |r[k]| ==> !IsSpace(r[k][i])
    decreases |s|
  {
    if s == [] then []
    else if IsSpace(s[0]) then Words(s[1..])
    else
      var n := WordLength(s);
      [s[..n]] + Words(s[n..])
  }

  /** `.replace("-", " ").replace("_", " ")` */
  function ReplaceSeparators(s: string): (r: string)
    ensures |r| == |s|
    ensures forall i :: 0 <= i < |s| ==> r[i] == if s[i] == '-' || s[i] == '_' then ' ' else s[i]
  {
    if s == [] then [] else [if s[0] == '-' || s[0] == '_' then ' ' else s[0]] + ReplaceSeparators(s[1..])
  }

  /** `str.capitalize()` on ASCII letters: the first character upper-cased
      and every other one lower-cased. */
  function Capitalize(s: string): (r: string)
    ensures |r| == |s|
    ensures |s| > 0 ==> r[0] == ToUpper(s[0])
    ensures forall i :: 0 < i < |s| ==> r[i] == ToLower(s[i])
  {
    if s == [] then [] else [ToUpper(s[0])] + Lower(s[1..])
  }

  /** split_camel_case */
  function SplitCamelCase(text: string): (r: string)
    ensures forall i :: 0 <= i < |r| ==> r[i] != '-' && r[i] != '_'
    ensures |r| > 0 ==> !IsLower(r[0])
    ensures forall i :: 0 < i < |r| ==> !IsUpper(r[i])
  {
    Capitalize(ReplaceSeparators(Join(Words(BreakCapitalWords(BreakCapitalRuns(text, false))), " ")))
  }

  /** Breaking before capitals only inserts spaces: the non-space
      characters of the input survive in order. */
  lemma BreaksOnlyInsertSpaces(text: string)
    ensures Unspaced(BreakCapitalWords(BreakCapitalRuns(text, false))) == Unspaced(text)
  {
    RunsOnlyInsertSpaces(text, false);
    WordsOnlyInsertSpaces(BreakCapitalRuns(text, false));
  }

  lemma {:induction false} RunsOnlyInsertSpaces(s: string, afterUpper: bool)
    ensures Unspaced(BreakCapitalRuns(s, afterUpper)) == Unspaced(s)
  {
    if s != [] {
      var head := if IsUpper(s[0]) && !afterUpper then " " + [s[0]] else [s[0]];
      UnspacedAppend(head, BreakCapitalRuns(s[1..], IsUpper(s[0])));
      RunsOnlyInsertSpaces(s[1..], IsUpper(s[0]));
      UnspacedAppend([s[0]], s[1..]);
      assert s == [s[0]] + s[1..];
    }
  }

  lemma {:induction false} WordsOnlyInsertSpaces(s: string)
    ensures Unspaced(BreakCapitalWords(s)) == Unspaced(s)
  {
    if s != [] {
      var head := if IsUpper(s[0]) && |s| > 1 && IsLower(s[1]) then " " + [s[0]] else [s[0]];
      UnspacedAppend(head, BreakCapitalWords(s[1..]));
      WordsOnlyInsertSpaces(s[1..]);
      UnspacedAppend([s[0]], s[1..]);
      assert s == [s[0]] + s[1..];
    }
  }

  predicate AllLower(w: string)
  {
    forall i :: 0 <= i < |w| ==> IsLower(w[i])
  }

  lemma {:induction false} RunsSkipLower(w: string, t: string, afterUpper: bool)
    requires AllLower(w)
    requires w != [] || !afterUpper
    ensures BreakCapitalRuns(w + t, afterUpper) == w + BreakCapitalRuns(t, false)
  {
    if w == [] {
      assert w + t == t;
    } else {
      assert (w + t)[0] == w[0];
      assert (w + t)[1..] == w[1..] + t;
      RunsSkipLower(w[1..], t, false);
    }
  }

  lemma {:induction false} WordsSkipNonUpper(p: string, t: string)
    requires forall i :: 0 <= i < |p| ==> !IsUpper(p[i])
    ensures BreakCapitalWords(p + t) == p + BreakCapitalWords(t)
  {
    if p == [] {
      assert p + t == t;
    } else {
      assert (p + t)[0] == p[0];
      assert (p + t)[1..] == p[1..] + t;
      WordsSkipNonUpper(p[1..], t);
    }
  }

  lemma {:induction false} WordLengthFront(w: string, t: string)
    requires forall i :: 0 <= i < |w| ==> !IsSpace(w[i])
    requires t == [] || IsSpace(t[0])
    ensures WordLength(w + t) == |w|
  {
    if w == [] {
      assert w + t == t;
    } else {
      assert (w + t)[1..] == w[1..] + t;
      WordLengthFront(w[1..], t);
    }
  }

  lemma WordsFront(w: string, t: string)
    requires w != [] && forall i :: 0 <= i < |w| ==> !IsSpace(w[i])
    requires t == [] || IsSpace(t[0])
    ensures Words(w + t) == [w] + Words(t)
  {
    WordLengthFront(w, t);
    assert (w + t)[0] == w[0];
    assert (w + t)[..|w|] == w;
    assert (w + t)[|w|..] == t;
  }

  lemma RunsCapitalWord(c: char, w2: string)
    requires IsUpper(c) && w2 != [] && AllLower(w2)
    ensures BreakCapitalRuns([c] + w2, false) == " " + ([c] + w2)
  {
    var second := [c] + w2;
    assert second[0] == c && second[1..] == w2;
    RunsSkipLower(w2, [], true);
    assert w2 + [] == w2;
  }

  lemma TwoWordsRuns(w1: string, c: char, w2: string)
    requires AllLower(w1) && IsUpper(c) && w2 != [] && AllLower(w2)
    ensures BreakCapitalRuns(w1 + [c] + w2, false) == w1 + " " + ([c] + w2)
  {
    RunsSkipLower(w1, [c] + w2, false);
    RunsCapitalWord(c, w2);
    assert w1 + [c] + w2 == w1 + ([c] + w2);
  }

  lemma CapitalWord(c: char, w2: string)
    requires IsUpper(c) && w2 != [] && AllLower(w2)
    ensures BreakCapitalWords([c] + w2) == " " + ([c] + w2)
  {
    var second := [c] + w2;
    assert second[0] == c && second[1] == w2[0] && second[1..] == w2;
    WordsSkipNonUpper(w2, []);
    assert w2 + [] == w2;
  }

  lemma TwoWordsBreak(w1: string, c: char, w2: string)
    requires AllLower(w1) && IsUpper(c) && w2 != [] && AllLower(w2)
    ensures BreakCapitalWords(w1 + " " + ([c] + w2)) == w1 + "  " + ([c] + w2)
  {
    var second := [c] + w2;
    var p := w1 + " ";
    assert forall i :: 0 <= i < |p| ==> !IsUpper(p[i]) by {
      forall i | 0 <= i < |p|
        ensures !IsUpper(p[i])
      {
        if i < |w1| {
          assert p[i] == w1[i];
        }
      }
    }
    WordsSkipNonUpper(p, second);
    CapitalWord(c, w2);
    assert w1 + "  " + second == p + (" " + second);
  }

  lemma TwoWordsSplit(w1: string, second: string)
    requires w1 != [] && AllLower(w1)
    requires second != [] && forall i :: 0 <= i < |second| ==> !IsSpace(second[i])
    ensures Words(w1 + "  " + second) == [w1, second]
  {
    WordsFront(w1, "  " + second);
    assert w1 + "  " + second == w1 + ("  " + second);
    assert ("  " + second)[1..] == " " + second;
    assert (" " + second)[1..] == second;
    WordsFront(second, []);
    assert second + [] == second;
  }

  lemma KeepsLetters(s: string)
    requires forall i :: 0 <= i < |s| ==> s[i] == ' ' || IsUpper(s[i]) || IsLower(s[i])
    ensures ReplaceSeparators(s) == s
  {
  }

  /** Both breaking passes turn `w1 + [c] + w2` into the two words with
      two spaces between them. */
  lemma TwoWordsBroken(w1: string, c: char, w2: string)
    requires AllLower(w1) && IsUpper(c) && w2 != [] && AllLower(w2)
    ensures BreakCapitalWords(BreakCapitalRuns(w1 + [c] + w2, false)) == w1 + "  " + ([c] + w2)
  {
    TwoWordsRuns(w1, c, w2);
    TwoWordsBreak(w1, c, w2);
  }

  /** Splitting on whitespace and joining with one space leaves the two
      words with one space between them. */
  lemma TwoWordsJoined(w1: string, c: char, w2: string)
    requires w1 != [] && AllLower(w1) && IsUpper(c) && AllLower(w2)
    ensures Join(Words(w1 + "  " + ([c] + w2)), " ") == w1 + " " + ([c] + w2)
  {
    var second := [c] + w2;
    forall i | 0 <= i < |second|
      ensures !IsSpace(second[i])
    {
      if i > 0 {
        assert second[i] == w2[i - 1];
      }
    }
    TwoWordsSplit(w1, second);
    assert Join([w1, second], " ") == w1 + " " + second;
  }

  /** The joined words hold no separator to replace. */
  lemma TwoWordsKept(w1: string, c: char, w2: string)
    requires AllLower(w1) && IsUpper(c) && AllLower(w2)
    ensures ReplaceSeparators(w1 + " " + ([c] + w2)) == w1 + " " + [c] + w2
  {
    var joined := w1 + " " + ([c] + w2);
    forall i | 0 <= i < |joined|
      ensures joined[i] == ' ' || IsUpper(joined[i]) || IsLower(joined[i])
    {
      if i < |w1| {
        assert joined[i] == w1[i];
      } else if i > |w1| + 1 {
        assert joined[i] == w2[i - |w1| - 2];
      }
    }
    KeepsLetters(joined);
    assert joined == w1 + " " + [c] + w2;
  }

  /** A lower-case word followed by a capitalised lower-case word
      (`birthDate`) is split into the two words and capitalised
      (`Birth date`). */
  lemma SplitTwoWords(w1: string, c: char, w2: string)
    requires w1 != [] && AllLower(w1) && IsUpper(c) && w2 != [] && AllLower(w2)
    ensures SplitCamelCase(w1 + [c] + w2) == Capitalize(w1 + " " + [c] + w2)
  {
    TwoWordsBroken(w1, c, w2);
    TwoWordsJoined(w1, c, w2);
    TwoWordsKept(w1, c, w2);
  }

  /** Capitalising two words that are lower-case but for the capital
      opening the second upper-cases the first letter and lower-cases that
      capital. */
  lemma CapitalizePair(w1: string, c: char, w2: string)
    requires w1 != [] && AllLower(w1) && IsUpper(c) && AllLower(w2)
    ensures Capitalize(w1 + " " + [c] + w2) == [ToUpper(w1[0])] + w1[1..] + " " + [ToLower(c)] + w2
  {
    var s := w1 + " " + [c] + w2;
    var t := [ToUpper(w1[0])] + w1[1..] + " " + [ToLower(c)] + w2;
    var r := Capitalize(s);
    forall i | 0 <= i < |t|
      ensures r[i] == t[i]
    {
      if 0 < i < |w1| {
        assert s[i] == w1[i] && t[i] == w1[i];
      } else if i == |w1| {
        assert s[i] == ' ' && t[i] == ' ';
      } else if i == |w1| + 1 {
        assert s[i] == c;
      } else if i > |w1| + 1 {
        assert s[i] == w2[i - |w1| - 2] && t[i] == w2[i - |w1| - 2];
      }
    }
  }

  /** The pieces `birthDate` and `Birth date` are made of. */
  lemma BirthDatePieces()
    ensures AllLower("birth") && AllLower("ate")
    ensures "birthDate" == "birth" + ['D'] + "ate"
    ensures [ToUpper("birth"[0])] + "birth"[1..] + " " + [ToLower('D')] + "ate" == "Birth date"
  {
    assert "birth"[1..] == "irth";
  }

  /** The example from the code's own comment: `birthDate` becomes `Birth date`. */
  lemma SplitBirthDate()
    ensures SplitCamelCase("birthDate") == "Birth date"
  {
    BirthDatePieces();
    SplitTwoWords("birth", 'D', "ate");
    CapitalizePair("birth", 'D', "ate");
  }

  // ---------------------------------------------------------------------
  // What split_camel_case keeps of its input

  /** The characters of `s` that are not whitespace (`str.isspace`). */
  function Solid(s: string): string
  {
    if s == [] then [] else (if IsSpace(s[0]) then [] else [s[0]]) + Solid(s[1..])
  }

  /** The characters of `s` other than `-` and `_`. */
  function NoSeparators(s: string): string
  {
    if s == [] then [] else (if s[0] == '-' || s[0] == '_' then [] else [s[0]]) + NoSeparators(s[1..])
  }

  /** The words of a list, one after the other. */
  function Concat(ws: seq<string>): string
  {
    if ws == [] then [] else ws[0] + Concat(ws[1..])
  }

  lemma {:induction false} SolidAppend(a: string, b: string)
    ensures Solid(a + b) == Solid(a) + Solid(b)
  {
    if a != [] {
      assert (a + b)[0] == a[0];
      assert (a + b)[1..] == a[1..] + b;
      SolidAppend(a[1..], b);
    } else {
      assert a + b == b;
    }
  }

  /** A word without whitespace is its own solid part. */
  lemma {:induction false} SolidWord(w: string)
    requires forall i :: 0 <= i < |w| ==> !IsSpace(w[i])
    ensures Solid(w) == w
  {
    if w != [] {
      SolidWord(w[1..]);
    }
  }

  /** Dropping plain spaces first changes nothing about the solid part. */
  lemma {:induction false} SolidUnspaced(s: string)
    ensures Solid(Unspaced(s)) == Solid(s)
  {
    if s != [] {
      var h := if s[0] == ' ' then [] else [s[0]];
      SolidAppend(h, Unspaced(s[1..]));
      SolidUnspaced(s[1..]);
    }
  }

  /** `split()` keeps every non-whitespace character, in order. */
  lemma {:induction false} ConcatWords(s: string)
    ensures Concat(Words(s)) == Solid(s)
    decreases |s|
  {
    if s != [] {
      if IsSpace(s[0]) {
        ConcatWords(s[1..]);
      } else {
        var n := WordLength(s);
        var ws := Words(s);
        assert ws == [s[..n]] + Words(s[n..]);
        assert ws[1..] == Words(s[n..]);
        ConcatWords(s[n..]);
        assert s == s[..n] + s[n..];
        SolidAppend(s[..n], s[n..]);
        SolidWord(s[..n]);
      }
    }
  }

  /** Joining words that hold no whitespace with single spaces adds only
      whitespace. */
  lemma {:induction false} SolidJoin(ws: seq<string>)
    requires forall k :: 0 <= k < |ws| ==> forall i :: 0 <= i < |ws[k]| ==> !IsSpace(ws[k][i])
    ensures Solid(Join(ws, " ")) == Concat(ws)
  {
    if |ws| == 1 {
      SolidWord(ws[0]);
      assert Concat(ws) == ws[0] + Concat([]);
    } else if |ws| > 1 {
      SolidJoin(ws[1..]);
      SolidAppend(ws[0] + " ", Join(ws[1..], " "));
      SolidAppend(ws[0], " ");
      SolidWord(ws[0]);
    }
  }

  /** Replacing `-` and `_` by spaces removes them from the solid part. */
  lemma {:induction false} SolidReplace(x: string)
    ensures Solid(ReplaceSeparators(x)) == NoSeparators(Solid(x))
  {
    if x != [] {
      var y := ReplaceSeparators(x);
      assert y == [y[0]] + ReplaceSeparators(x[1..]);
      SolidReplace(x[1..]);
      var h := if IsSpace(x[0]) then [] else [x[0]];
      assert Solid(x) == h + Solid(x[1..]);
      NoSeparatorsAppend(h, Solid(x[1..]));
    }
  }

  lemma {:induction false} NoSeparatorsAppend(a: string, b: string)
    ensures NoSeparators(a + b) == NoSeparators(a) + NoSeparators(b)
  {
    if a != [] {
      assert (a + b)[0] == a[0];
      assert (a + b)[1..] == a[1..] + b;
      NoSeparatorsAppend(a[1..], b);
    } else {
      assert a + b == b;
    }
  }

  /** Lower-casing and dropping whitespace can be done in either order. */
  lemma {:induction false} LowerSolid(s: string)
    ensures Lower(Solid(s)) == Solid(Lower(s))
  {
    if s != [] {
      var h := if IsSpace(s[0]) then [] else [s[0]];
      assert Lower(s) == [ToLower(s[0])] + Lower(s[1..]);
      assert Lower(h + Solid(s[1..])) == Lower(h) + Lower(Solid(s[1..]));
      LowerSolid(s[1..]);
    }
  }

  /** Ignoring case, `capitalize()` changes nothing. */
  lemma CapitalizeFolds(y: string)
    ensures Lower(Capitalize(y)) == Lower(y)
  {
    var c := Capitalize(y);
    forall i | 0 <= i < |y|
      ensures Lower(c)[i] == Lower(y)[i]
    {
      if i == 0 {
        assert ToLower(ToUpper(y[0])) == ToLower(y[0]);
      } else {
        assert ToLower(ToLower(y[i])) == ToLower(y[i]);
      }
    }
  }

  /** Every non-whitespace character of the input other than `-` and `_`
      reaches the label, in order, and nothing else does: the label differs
      from the input only in case, whitespace and separators. So the label is
      empty only when the input has no such character. */
  lemma SplitCamelCaseKeepsText(text: string)
    ensures Lower(Solid(SplitCamelCase(text))) == Lower(NoSeparators(Solid(text)))
    ensures NoSeparators(Solid(text)) != [] ==> SplitCamelCase(text) != []
  {
    var b := BreakCapitalWords(BreakCapitalRuns(text, false));
    var joined := Join(Words(b), " ");
    var y := ReplaceSeparators(joined);
    LowerSolid(Capitalize(y));
    CapitalizeFolds(y);
    LowerSolid(y);
    SolidReplace(joined);
    SolidJoin(Words(b));
    ConcatWords(b);
    BreaksOnlyInsertSpaces(text);
    SolidUnspaced(b);
    SolidUnspaced(text);
  }

  // ---------------------------------------------------------------------
  // is_dict / is_list / is_string

  predicate IsDict(j: Json) { j.JObject? }
  predicate IsList(j: Json) { j.JArray? }
  predicate IsString(j: Json) { j.JString? }

  /** The three type tests are exact: no value passes two of them, and a
      number, a boolean or `None` passes none. */
  lemma TypeTestsExclusive(j: Json)
    ensures !(IsDict(j) && IsList(j)) && !(IsDict(j) && IsString(j)) && !(IsList(j) && IsString(j))
    ensures IsScalar(j) && !IsString(j) <==> !IsDict(j) && !IsList(j) && !IsString(j)
  {
  }

  // ---------------------------------------------------------------------
  // get_code_or_type_or_category / get_resource_description

  /** get_code_or_type_or_category: the first truthy value among `code`,
      `type` and `category`, or `None`. */
  function CodeOrTypeOrCategory(obj: Json): (r: Option<Json>)
    requires obj.JObject?
    ensures r.Some? ==> Truthy(r.value)
    ensures r.None? <==> !TruthyAt(obj, "code") && !TruthyAt(obj, "type") && !TruthyAt(obj, "category")
    ensures TruthyAt(obj, "code") ==> r == Get(obj, "code")
    ensures !TruthyAt(obj, "code") && TruthyAt(obj, "type") ==> r == Get(obj, "type")
    ensures !TruthyAt(obj, "code") && !TruthyAt(obj, "type") && TruthyAt(obj, "category")
      ==> r == Get(obj, "category")
  {
    if TruthyAt(obj, "code") then Get(obj, "code")
    else if TruthyAt(obj, "type") then Get(obj, "type")
    else if TruthyAt(obj, "category") then Get(obj, "category")
    else None
  }

  datatype Description = Title(title: Json) | ConceptText(text: string) | NoDescription

  /** handle_codeable: the concept's text when the value is a CodeableConcept,
      else `None`. */
  function HandleCodeable(x: Json, isConcept: Json -> bool, conceptText: Json -> string): Description
  {
    if isConcept(x) then ConceptText(conceptText(x)) else NoDescription
  }

  /** get_resource_description: a truthy `title` wins; otherwise the picked
      code/type/category is described itself when it is a dict and by its
      first element when it is a list or a string. With nothing picked (or a
      picked number or boolean) the subscript raises. */
  function ResourceDescription(obj: Json, isConcept: Json -> bool, conceptText: Json -> string)
    : (r: Result<Description>)
    requires obj.JObject?
    ensures TruthyAt(obj, "title") ==> r == Ok(Title(Get(obj, "title").value))
    ensures !TruthyAt(obj, "title") && CodeOrTypeOrCategory(obj).None? ==> r.Err?
    ensures !TruthyAt(obj, "title") && CodeOrTypeOrCategory(obj).Some? ==>
      var picked := CodeOrTypeOrCategory(obj).value;
      && (IsDict(picked) ==> r == Ok(HandleCodeable(picked, isConcept, conceptText)))
      && (IsList(picked) ==> r == Ok(HandleCodeable(picked.items[0], isConcept, conceptText)))
      && (IsString(picked) ==> r == Ok(HandleCodeable(JString([picked.s[0]]), isConcept, conceptText)))
      && (!IsDict(picked) && !IsList(picked) && !IsString(picked) ==> r.Err?)
  {
    if TruthyAt(obj, "title") then Ok(Title(Get(obj, "title").value))
    else
      match CodeOrTypeOrCategory(obj)
      case None => Err(Fault("'NoneType' object is not subscriptable"))
      case Some(picked) =>
        if IsDict(picked) then Ok(HandleCodeable(picked, isConcept, conceptText))
        else
          match picked
          case JArray(items) => Ok(HandleCodeable(items[0], isConcept, conceptText))
          case JString(s) => Ok(HandleCodeable(JString([s[0]]), isConcept, conceptText))
          case _ => Err(Fault("object is not subscriptable"))
  }


  /** A resource whose `code` is a concept and one whose `code` is a list
      holding that concept first get the same description. */
  lemma CodeListDescribedLikeCode(c: Json, rest: seq<Json>, isConcept: Json -> bool, conceptText: Json -> string)
    requires c.JObject? && c.members != []
    ensures ResourceDescription(JObject([Member("code", c)]), isConcept, conceptText)
      == Ok(HandleCodeable(c, isConcept, conceptText))
    ensures ResourceDescription(JObject([Member("code", JArray([c] + rest))]), isConcept, conceptText)
      == Ok(HandleCodeable(c, isConcept, conceptText))
  {
    var one, many := JObject([Member("code", c)]), JObject([Member("code", JArray([c] + rest))]);
    assert Get(one, "title").None? && Get(many, "title").None?;
    assert Get(one, "code") == Some(c);
    assert Get(many, "code") == Some(JArray([c] + rest));
  }
}
