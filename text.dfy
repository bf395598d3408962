/** String helpers of the download handlers: the file-name sanitiser used by
    the save trigger, the title sanitiser and the composition of a download
    file name `title_size_timestamp.gif`. */
module Text {

  /** The characters the regular-expression class `\s` matches: the
      ECMAScript white-space and line-terminator code points. */
  predicate IsWhitespace(c: char): (b: bool)
    // white space is neither kept by the file-name sanitiser nor a letter
    // or digit of the title sanitiser
    ensures b ==> !IsFileNameChar(c) && !IsAsciiLetter(c) && !IsDigit(c)
    ensures c == ' ' || c == '\t' || c == '\n' || c == '\r' ==> b
  {
    var n := c as int;
    n == 0x09 || n == 0x0A || n == 0x0B || n == 0x0C || n == 0x0D || n == 0x20
    || n == 0xA0 || n == 0x1680 || (0x2000 <= n <= 0x200A) || n == 0x2028
    || n == 0x2029 || n == 0x202F || n == 0x205F || n == 0x3000 || n == 0xFEFF
  }

  /** `[a-z]` under the case-insensitive flag: the ASCII letters only. */
  predicate IsAsciiLetter(c: char)
  {
    ('a' <= c <= 'z') || ('A' <= c <= 'Z')
  }

  predicate IsDigit(c: char)
  {
    '0' <= c <= '9'
  }

  /** The characters the file-name sanitiser keeps: `[a-z0-9._-]`, any case. */
  predicate IsFileNameChar(c: char)
  {
    ('a' <= c <= 'z') || ('A' <= c <= 'Z') || ('0' <= c <= '9') || c == '.' || c == '_' || c == '-'
  }

  /** Every character of `s` survives the file-name sanitiser. */
  predicate IsCleanFileName(s: string)
  {
    forall i :: 0 <= i < |s| ==> IsFileNameChar(s[i])
  }

  /** `filename.replace(/[^a-z0-9._-]/gi, '_')`: every character outside the
      allowed class becomes one underscore, every other is kept in place. */
  function SanitizeFileName(name: string): (r: string)
    ensures |r| == |name|
    ensures forall i {:trigger r[i]} :: 0 <= i < |name| ==>
              r[i] == (if IsFileNameChar(name[i]) then name[i] else '_')
  {
    if name == [] then []
    else [if IsFileNameChar(name[0]) then name[0] else '_'] + SanitizeFileName(name[1..])
  }

  lemma SanitizedFileNameIsClean(name: string)
    ensures IsCleanFileName(SanitizeFileName(name))
  {
    var r := SanitizeFileName(name);
    forall i | 0 <= i < |r| ensures IsFileNameChar(r[i]) {
      assert r[i] == (if IsFileNameChar(name[i]) then name[i] else '_');
    }
  }

  /** The sanitiser leaves a name alone exactly when the name is already clean. */
  lemma SanitizeFileNameFixedPoint(name: string)
    ensures SanitizeFileName(name) == name <==> IsCleanFileName(name)
  {
    var r := SanitizeFileName(name);
    if r == name {
      SanitizedFileNameIsClean(name);
    }
    if IsCleanFileName(name) {
      assert forall i :: 0 <= i < |name| ==> r[i] == name[i];
    }
  }

  lemma SanitizeFileNameIdempotent(name: string)
    ensures SanitizeFileName(SanitizeFileName(name)) == SanitizeFileName(name)
  {
    SanitizedFileNameIsClean(name);
    SanitizeFileNameFixedPoint(SanitizeFileName(name));
  }

  /** The sanitiser works character by character, so it distributes over
      concatenation. */
  lemma {:induction false} SanitizeFileNameAppend(a: string, b: string)
    ensures SanitizeFileName(a + b) == SanitizeFileName(a) + SanitizeFileName(b)
  {
    if a == [] {
      assert a + b == b;
    } else {
      assert (a + b)[0] == a[0];
      assert (a + b)[1..] == a[1..] + b;
      SanitizeFileNameAppend(a[1..], b);
    }
  }


  lemma SanitizeSeparators()
    ensures SanitizeFileName("a/b:") == "a_b_"
  {
    var x, r := "a/b:", SanitizeFileName("a/b:");
    forall k | 0 <= k < 4 ensures r[k] == "a_b_"[k] {
      assert r[k] == (if IsFileNameChar(x[k]) then x[k] else '_');
    }
  }

  lemma SanitizeWildcard()
    ensures SanitizeFileName("c*d.gif") == "c_d.gif"
  {
    var y, r := "c*d.gif", SanitizeFileName("c*d.gif");
    forall k | 0 <= k < 7 ensures r[k] == "c_d.gif"[k] {
      assert r[k] == (if IsFileNameChar(y[k]) then y[k] else '_');
    }
  }

  /** Separators and wildcards each become one underscore; letters and dots
      stay. */
  lemma SanitizeFileNameExample()
    ensures SanitizeFileName("a/b:c*d.gif") == "a_b_c_d.gif"
  {
    SanitizeSeparators();
    SanitizeWildcard();
    SanitizeFileNameAppend("a/b:", "c*d.gif");
    assert "a/b:" + "c*d.gif" == "a/b:c*d.gif";
    assert "a_b_" + "c_d.gif" == "a_b_c_d.gif";
  }

  /** The characters the title sanitiser keeps: `[a-z0-9\s]`, any case. */
  predicate IsTitleChar(c: char)
  {
    IsAsciiLetter(c) || IsDigit(c) || IsWhitespace(c)
  }

  /** `replace(/[^a-z0-9\s]/gi, '')`: drops every character outside the class
      and keeps the rest in order. */
  function KeepTitleChars(s: string): (r: string)
    ensures |r| <= |s|
    ensures forall i :: 0 <= i < |r| ==> IsTitleChar(r[i])
    ensures forall c :: c in r <==> c in s && IsTitleChar(c)
  {
    if s == [] then []
    else if IsTitleChar(s[0]) then [s[0]] + KeepTitleChars(s[1..])
    else KeepTitleChars(s[1..])
  }

  /** Dropping characters works piece by piece: the kept characters of a
      concatenation are those of each part, in order. */
  lemma {:induction false} KeepTitleCharsAppend(a: string, b: string)
    ensures KeepTitleChars(a + b) == KeepTitleChars(a) + KeepTitleChars(b)
  {
    if a == [] {
      assert a + b == b;
    } else {
      assert (a + b)[1..] == a[1..] + b;
      KeepTitleCharsAppend(a[1..], b);
    }
  }

  /** A title made only of kept characters passes through unchanged, and only
      such a title does. */
  lemma {:induction false} KeepTitleCharsFixedPoint(s: string)
    ensures KeepTitleChars(s) == s <==> forall i :: 0 <= i < |s| ==> IsTitleChar(s[i])
  {
    if s != [] {
      KeepTitleCharsFixedPoint(s[1..]);
      if !IsTitleChar(s[0]) {
        assert |KeepTitleChars(s)| < |s|;
      }
    }
  }

  /** `title.substring(0, 50)`. */
  function Prefix(s: string, n: nat): (r: string)
    ensures |r| == if |s| <= n then |s| else n
    ensures r <= s
  {
    if |s| <= n then s else s[..n]
  }

  const TitleLimit: nat := 50
  const DefaultTitle: string := "giphy"

  /** `title || 'giphy'`: the default applies to the empty title only. */
  function TitleOrDefault(title: string): (r: string)
    ensures r != []
    ensures title != [] ==> r == title
  {
    if title == [] then DefaultTitle else title
  }

  /** `title.substring(0, 50).replace(/[^a-z0-9\s]/gi, '')` applied to the
      defaulted title. */
  function SanitizeTitle(title: string): (r: string)
    ensures |r| <= TitleLimit
    ensures forall i :: 0 <= i < |r| ==> IsTitleChar(r[i])
  {
    KeepTitleChars(Prefix(TitleOrDefault(title), TitleLimit))
  }

  lemma EmptyTitleGivesDefault()
    ensures SanitizeTitle("") == "giphy"
  {
    KeepTitleCharsFixedPoint("giphy");
  }

  /** A clean title of at most fifty characters is kept verbatim. */
  lemma ShortCleanTitleKept(title: string)
    requires 0 < |title| <= TitleLimit
    requires forall i :: 0 <= i < |title| ==> IsTitleChar(title[i])
    ensures SanitizeTitle(title) == title
  {
    KeepTitleCharsFixedPoint(title);
  }

  function DigitChar(d: nat): (c: char)
    requires d < 10
    ensures IsDigit(c)
  {
    ((('0' as int) + d) as char)
  }

  function DigitValue(c: char): (d: nat)
    requires IsDigit(c)
    ensures d < 10 && DigitChar(d) == c
  {
    (c as int) - ('0' as int)
  }

  /** The decimal text of a millisecond timestamp, as `${Date.now()}` prints
      it: no sign, no leading zero except for 0 itself. */
  function Decimal(n: nat): (r: string)
    ensures |r| >= 1
    ensures forall i :: 0 <= i < |r| ==> IsDigit(r[i])
    ensures |r| > 1 ==> r[0] != '0'
  {
    if n < 10 then [DigitChar(n)] else Decimal(n / 10) + [DigitChar(n % 10)]
  }

  /** Reads a string of digits back as a number. */
  function DecimalValue(s: string): (n: nat)
    requires forall i :: 0 <= i < |s| ==> IsDigit(s[i])
  {
    if s == [] then 0 else 10 * DecimalValue(s[..|s| - 1]) + DigitValue(s[|s| - 1])
  }

  lemma {:induction false} DecimalRoundTrip(n: nat)
    ensures DecimalValue(Decimal(n)) == n
  {
    var r := Decimal(n);
    if n < 10 {
      assert r == [DigitChar(n)];
      assert r[..0] == [];
    } else {
      var front, last := Decimal(n / 10), DigitChar(n % 10);
      assert r == front + [last];
      assert r[..|r| - 1] == front;
      assert r[|r| - 1] == last;
      DecimalRoundTrip(n / 10);
    }
  }

  /** `${sanitizedTitle}_${size}_${timestamp}.gif`. */
  function DownloadFileName(title: string, size: string, now: nat): (r: string)
    ensures |r| >= |size| + 7
    ensures r[|r| - 4..] == ".gif"
  {
    SanitizeTitle(title) + "_" + size + "_" + Decimal(now) + ".gif"
  }

  /** The parts of a generated download name and what each part is. */
  lemma DownloadFileNameParts(title: string, size: string, now: nat)
    ensures var stem := SanitizeTitle(title);
            var stamp := Decimal(now);
            && DownloadFileName(title, size, now) == stem + "_" + size + "_" + stamp + ".gif"
            && |stem| <= TitleLimit
            && (forall i :: 0 <= i < |stem| ==> IsTitleChar(stem[i]))
            && (title == "" ==> stem == "giphy")
            && DecimalValue(stamp) == now
  {
    EmptyTitleGivesDefault();
    DecimalRoundTrip(now);
  }

  /** The default applies before sanitising: a title made only of punctuation
      yields an empty stem, not "giphy". */
  lemma PunctuationTitleGivesEmptyStem()
    ensures DownloadFileName("!!!", "original", 0) == "_original_0.gif"
  {
    assert SanitizeTitle("!!!") == [];
  }
}
