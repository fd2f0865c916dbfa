/** The printable job sheet: HTML escaping of every text placed in the
    sheet, and the paid-in-full and due-date values computed at its top. The
    HTML template itself is not modelled. */
module PrintHtml {
  import opened Base
  import opened Model
  import Store

  /** `s.replace(/c/g, rep)`: every occurrence of the character c replaced. */
  function ReplaceAll(s: string, c: char, rep: string): (r: string)
    ensures c !in rep ==> c !in r
  {
    if s == [] then []
    else (if s[0] == c then rep else [s[0]]) + ReplaceAll(s[1..], c, rep)
  }

  /** Replacement distributes over concatenation. */
  lemma {:induction false} ReplaceAllConcat(a: string, b: string, c: char, rep: string)
    ensures ReplaceAll(a + b, c, rep) == ReplaceAll(a, c, rep) + ReplaceAll(b, c, rep)
  {
    if a != [] {
      ReplaceAllConcat(a[1..], b, c, rep);
      assert (a + b)[1..] == a[1..] + b;
    } else {
      assert a + b == b;
    }
  }

  /** Replacement brings in no character that is neither in the text nor
      in the replacement. */
  lemma {:induction false} ReplaceAllNoNew(s: string, c: char, rep: string, d: char)
    requires d !in s && d !in rep
    ensures d !in ReplaceAll(s, c, rep)
  {
    if s != [] {
      ReplaceAllNoNew(s[1..], c, rep, d);
    }
  }

  /** Replacing a character that does not occur changes nothing. */
  lemma {:induction false} ReplaceAllAbsent(s: string, c: char, rep: string)
    requires c !in s
    ensures ReplaceAll(s, c, rep) == s
  {
    if s != [] {
      ReplaceAllAbsent(s[1..], c, rep);
    }
  }

  /** `escapeHtml`: the five replacements in source order, '&' first. */
  function EscapeHtml(unsafe: string): string {
    var s1 := ReplaceAll(unsafe, '&', "&amp;");
    var s2 := ReplaceAll(s1, '<', "&lt;");
    var s3 := ReplaceAll(s2, '>', "&gt;");
    var s4 := ReplaceAll(s3, '"', "&quot;");
    ReplaceAll(s4, '\'', "&#039;")
  }

  /** The entity each special character becomes; any other character stays. */
  function EscapeChar(x: char): (r: string)
    ensures |r| >= 1
  {
    if x == '&' then "&amp;"
    else if x == '<' then "&lt;"
    else if x == '>' then "&gt;"
    else if x == '"' then "&quot;"
    else if x == '\'' then "&#039;"
    else [x]
  }

  /** The escaping character by character. */
  function EscapeChars(s: string): string {
    if s == [] then [] else EscapeChar(s[0]) + EscapeChars(s[1..])
  }

  lemma ReplaceAllSingle(x: char, c: char, rep: string)
    ensures ReplaceAll([x], c, rep) == if x == c then rep else [x]
  {
    assert [x][1..] == [];
  }

  /** The last four replacements leave a text without their characters
      alone. */
  lemma LaterStagesAbsent(s1: string)
    requires '<' !in s1 && '>' !in s1 && '"' !in s1 && '\'' !in s1
    ensures ReplaceAll(ReplaceAll(ReplaceAll(ReplaceAll(s1, '<', "&lt;"), '>', "&gt;"), '"', "&quot;"), '\'', "&#039;") == s1
  {
    ReplaceAllAbsent(s1, '<', "&lt;");
    ReplaceAllAbsent(s1, '>', "&gt;");
    ReplaceAllAbsent(s1, '"', "&quot;");
    ReplaceAllAbsent(s1, '\'', "&#039;");
  }

  lemma EscapeHtmlOneChar(x: char)
    ensures EscapeHtml([x]) == EscapeChar(x)
  {
    ReplaceAllSingle(x, '&', "&amp;");
    if x == '&' {
      LaterStagesAbsent("&amp;");
    } else if x == '<' {
      EscapeOneLt();
    } else if x == '>' {
      EscapeOneGt();
    } else if x == '"' {
      EscapeOneQuot();
    } else if x == '\'' {
      EscapeOneApos();
    } else {
      LaterStagesAbsent([x]);
    }
  }

  lemma EscapeOneLt()
    ensures EscapeHtml("<") == "&lt;"
  {
    var lt := "&lt;";
    ReplaceAllSingle('<', '&', "&amp;");
    ReplaceAllSingle('<', '<', lt);
    assert ReplaceAll(ReplaceAll("<", '&', "&amp;"), '<', lt) == lt;
    LaterStagesAbsentFrom2(lt);
  }

  lemma LaterStagesAbsentFrom2(s2: string)
    requires '>' !in s2 && '"' !in s2 && '\'' !in s2
    ensures ReplaceAll(ReplaceAll(ReplaceAll(s2, '>', "&gt;"), '"', "&quot;"), '\'', "&#039;") == s2
  {
    ReplaceAllAbsent(s2, '>', "&gt;");
    ReplaceAllAbsent(s2, '"', "&quot;");
    ReplaceAllAbsent(s2, '\'', "&#039;");
  }

  lemma EscapeOneGt()
    ensures EscapeHtml(">") == "&gt;"
  {
    ReplaceAllSingle('>', '&', "&amp;");
    ReplaceAllSingle('>', '<', "&lt;");
    ReplaceAllSingle('>', '>', "&gt;");
    ReplaceAllAbsent("&gt;", '"', "&quot;");
    ReplaceAllAbsent("&gt;", '\'', "&#039;");
  }

  lemma EscapeOneQuot()
    ensures EscapeHtml("\"") == "&quot;"
  {
    ReplaceAllSingle('"', '&', "&amp;");
    ReplaceAllSingle('"', '<', "&lt;");
    ReplaceAllSingle('"', '>', "&gt;");
    ReplaceAllSingle('"', '"', "&quot;");
    ReplaceAllAbsent("&quot;", '\'', "&#039;");
  }

  lemma EscapeOneApos()
    ensures EscapeHtml("'") == "&#039;"
  {
    ReplaceAllSingle('\'', '&', "&amp;");
    ReplaceAllSingle('\'', '<', "&lt;");
    ReplaceAllSingle('\'', '>', "&gt;");
    ReplaceAllSingle('\'', '"', "&quot;");
    ReplaceAllSingle('\'', '\'', "&#039;");
  }

  /** The chained replacements escape every character on its own. */
  lemma {:induction false} EscapeHtmlIsPerChar(s: string)
    ensures EscapeHtml(s) == EscapeChars(s)
  {
    if s != [] {
      var x, rest := s[0], s[1..];
      assert s == [x] + rest;
      EscapeHtmlSplit([x], rest);
      EscapeHtmlOneChar(x);
      EscapeHtmlIsPerChar(rest);
    }
  }

  /** Escaping distributes over concatenation. */
  lemma EscapeHtmlSplit(a: string, b: string)
    ensures EscapeHtml(a + b) == EscapeHtml(a) + EscapeHtml(b)
  {
    ReplaceAllConcat(a, b, '&', "&amp;");
    var a1, b1 := ReplaceAll(a, '&', "&amp;"), ReplaceAll(b, '&', "&amp;");
    ReplaceAllConcat(a1, b1, '<', "&lt;");
    var a2, b2 := ReplaceAll(a1, '<', "&lt;"), ReplaceAll(b1, '<', "&lt;");
    ReplaceAllConcat(a2, b2, '>', "&gt;");
    var a3, b3 := ReplaceAll(a2, '>', "&gt;"), ReplaceAll(b2, '>', "&gt;");
    ReplaceAllConcat(a3, b3, '"', "&quot;");
    var a4, b4 := ReplaceAll(a3, '"', "&quot;"), ReplaceAll(b3, '"', "&quot;");
    ReplaceAllConcat(a4, b4, '\'', "&#039;");
  }

  /** One of the five characters escaping rewrites. */
  predicate Special(x: char) {
    x == '&' || x == '<' || x == '>' || x == '"' || x == '\''
  }

  /** The output holds none of '<', '>', '"' and '\''. */
  lemma EscapeHtmlSafe(s: string)
    ensures '<' !in EscapeHtml(s) && '>' !in EscapeHtml(s) && '"' !in EscapeHtml(s) && '\'' !in EscapeHtml(s)
  {
    var s1 := ReplaceAll(s, '&', "&amp;");
    var s2 := ReplaceAll(s1, '<', "&lt;");
    var s3 := ReplaceAll(s2, '>', "&gt;");
    var s4 := ReplaceAll(s3, '"', "&quot;");
    ReplaceAllNoNew(s2, '>', "&gt;", '<');
    ReplaceAllNoNew(s3, '"', "&quot;", '<');
    ReplaceAllNoNew(s4, '\'', "&#039;", '<');
    ReplaceAllNoNew(s3, '"', "&quot;", '>');
    ReplaceAllNoNew(s4, '\'', "&#039;", '>');
    ReplaceAllNoNew(s4, '\'', "&#039;", '"');
  }

  /** Text without special characters is left as it is. */
  lemma {:induction false} EscapeHtmlPlain(s: string)
    requires forall i :: 0 <= i < |s| ==> !Special(s[i])
    ensures EscapeHtml(s) == s
  {
    EscapeCharsPlain(s);
    EscapeHtmlIsPerChar(s);
  }

  lemma {:induction false} EscapeCharsPlain(s: string)
    requires forall i :: 0 <= i < |s| ==> !Special(s[i])
    ensures EscapeChars(s) == s
  {
    if s != [] {
      EscapeCharsPlain(s[1..]);
      assert s == [s[0]] + s[1..];
    }
  }

  /** The text starts with one of the five entities escaping produces. */
  predicate StartsEntity(t: string) {
    StartsWith(t, "&amp;") || StartsWith(t, "&lt;") || StartsWith(t, "&gt;")
    || StartsWith(t, "&quot;") || StartsWith(t, "&#039;")
  }

  /** Because '&' is replaced first, every '&' of the output starts an
      entity. */
  lemma EscapeHtmlAmpersands(s: string)
    ensures forall i :: 0 <= i < |EscapeHtml(s)| && EscapeHtml(s)[i] == '&' ==> StartsEntity(EscapeHtml(s)[i..])
  {
    EscapeHtmlIsPerChar(s);
    EscapeCharsAmpersands(s);
  }

  lemma {:induction false} EscapeCharsAmpersands(s: string)
    ensures forall i :: 0 <= i < |EscapeChars(s)| && EscapeChars(s)[i] == '&' ==> StartsEntity(EscapeChars(s)[i..])
  {
    if s != [] {
      var e, rest := EscapeChar(s[0]), EscapeChars(s[1..]);
      var t := EscapeChars(s);
      assert t == e + rest;
      EscapeCharsAmpersands(s[1..]);
      forall i | 0 <= i < |t| && t[i] == '&'
        ensures StartsEntity(t[i..])
      {
        if i < |e| {
          assert i == 0;
          assert t[i..] == e + rest;
          assert (e + rest)[..|e|] == e;
        } else {
          assert t[i..] == rest[i - |e|..];
        }
      }
    }
  }

  /** The inverse of escaping: each of the five entities turns back into its
      character, from the front. */
  function Unescape(t: string): string
    decreases |t|
  {
    if t == [] then []
    else if StartsWith(t, "&amp;") then "&" + Unescape(t[5..])
    else if StartsWith(t, "&lt;") then "<" + Unescape(t[4..])
    else if StartsWith(t, "&gt;") then ">" + Unescape(t[4..])
    else if StartsWith(t, "&quot;") then "\"" + Unescape(t[6..])
    else if StartsWith(t, "&#039;") then "'" + Unescape(t[6..])
    else [t[0]] + Unescape(t[1..])
  }

  /** An entity followed by more text unescapes to its character. */
  lemma UnescapeEntity(e: string, x: char, rest: string)
    requires Special(x) && e == EscapeChar(x)
    ensures Unescape(e + rest) == [x] + Unescape(rest)
  {
    var t := e + rest;
    assert t[..|e|] == e && t[|e|..] == rest;
    if x != '&' {
      assert t[1] == e[1] != 'a';
      if x != '<' {
        assert e[1] != 'l';
        if x != '>' {
          assert e[1] != 'g';
          if x != '"' {
            assert e[1] != 'q';
          }
        }
      }
    }
  }

  /** A character that is not '&' unescapes to itself. */
  lemma UnescapePlain(x: char, rest: string)
    requires x != '&'
    ensures Unescape([x] + rest) == [x] + Unescape(rest)
  {
    var t := [x] + rest;
    assert t[0] == x && t[1..] == rest;
  }

  lemma UnescapeOne(x: char, rest: string)
    ensures Unescape(EscapeChar(x) + rest) == [x] + Unescape(rest)
  {
    if Special(x) {
      UnescapeEntity(EscapeChar(x), x, rest);
    } else {
      UnescapePlain(x, rest);
    }
  }

  /** Unescaping the escaped text recovers it. */
  lemma {:induction false} UnescapeEscape(s: string)
    ensures Unescape(EscapeHtml(s)) == s
  {
    EscapeHtmlIsPerChar(s);
    UnescapeEscapeChars(s);
  }

  lemma {:induction false} UnescapeEscapeChars(s: string)
    ensures Unescape(EscapeChars(s)) == s
  {
    if s != [] {
      UnescapeOne(s[0], EscapeChars(s[1..]));
      UnescapeEscapeChars(s[1..]);
      assert s == [s[0]] + s[1..];
    }
  }

  /** `job.totalPaid || 0`. */
  function PaidAmount(j: Job): (r: real)
    ensures j.totalPaid.None? ==> r == 0.0
    ensures j.totalPaid.Some? ==> r == j.totalPaid.value
  {
    j.totalPaid.GetOr(0.0)
  }

  /** `isPaidInFull`: something was paid and no balance remains. */
  predicate PrintPaidInFull(j: Job) {
    var total := ItemsTotal(j.items);
    var balance := total - PaidAmount(j);
    balance <= 0.0 && PaidAmount(j) > 0.0
  }

  /** The print view's rule is the sweep's payment rule plus "something was
      paid". */
  lemma PrintPaidVersusSweep(j: Job)
    ensures PrintPaidInFull(j) <==> Store.PaidForSweep(j) && PaidAmount(j) > 0.0
  {
  }

  /** A job with nothing charged and nothing paid counts as paid for the
      archive sweep but is not shown as fully paid. */
  lemma ZeroTotalUnpaid(j: Job)
    requires j.items == [] && j.totalPaid.None?
    ensures Store.PaidForSweep(j) && !PrintPaidInFull(j)
  {
  }

  /** `dueDate`: the estimated dispatch date when one is set and non-empty,
      else the job date. */
  function DueDate(j: Job): (r: string)
    ensures Truthy(j.estimatedDispatchDate) ==> r == j.estimatedDispatchDate.value
    ensures !Truthy(j.estimatedDispatchDate) ==> r == j.date
  {
    OrString(j.estimatedDispatchDate, j.date)
  }
}
