/** Display formatting: a job status in title case, and the date part of an
    ISO time stamp. */
module Formatters {
  import opened Base
  import opened Lists

  /** A word with its first character upper-cased. An empty word has no
      first character; `FormatStatus` never passes one. */
  function Capitalize(w: string): string {
    if w == [] then [] else [UpperChar(w[0])] + w[1..]
  }

  /** Some space-separated word of s is empty: s is empty, starts or ends
      with a space, or has two spaces in a row. */
  predicate HasEmptyWord(s: string) {
    exists k :: 0 <= k < |Split(s, ' ')| && Split(s, ' ')[k] == []
  }

  /** `formatStatus`: split on ' ', upper-case the first character of each
      word, join with ' '. An empty word has no first character and the call
      throws (None). */
  function FormatStatus(status: string): (r: Option<string>)
    ensures r.None? <==> HasEmptyWord(status)
  {
    var words := Split(status, ' ');
    if HasEmptyWord(status) then None else Some(Join(" ", Map(words, Capitalize)))
  }

  /** The intended result, character by character: a character that starts
      the string or follows a space is upper-cased, every other one stays. */
  function TitleCase(s: string): (r: string)
    ensures |r| == |s|
    ensures forall i :: 0 <= i < |s| ==> r[i] == (if i == 0 || s[i - 1] == ' ' then UpperChar(s[i]) else s[i])
  {
    seq(|s|, i requires 0 <= i < |s| => if i == 0 || s[i - 1] == ' ' then UpperChar(s[i]) else s[i])
  }

  /** Title-casing a word, a space and the rest is capitalising the word
      and title-casing the rest. */
  lemma TitleCaseAfterWord(w: string, rest: string)
    requires forall i :: 0 <= i < |w| ==> w[i] != ' '
    ensures TitleCase(w + " " + rest) == Capitalize(w) + " " + TitleCase(rest)
  {
    var s := w + " " + rest;
    var tw := Capitalize(w);
    var tr := TitleCase(rest);
    var r := tw + " " + tr;
    var ts := TitleCase(s);
    forall i | 0 <= i < |s|
      ensures r[i] == ts[i]
    {
      if i < |w| {
        assert s[i] == w[i] && r[i] == tw[i];
        if i > 0 {
          assert s[i - 1] == w[i - 1];
        }
      } else if i == |w| {
        assert s[i] == ' ' && r[i] == ' ';
      } else {
        var j := i - |w| - 1;
        assert s[i] == rest[j] && r[i] == tr[j];
        if j > 0 {
          assert s[i - 1] == rest[j - 1];
        }
      }
    }
  }

  /** Joining capitalised words with spaces title-cases the joined words. */
  lemma {:induction false} JoinCapitalized(words: seq<string>)
    requires forall k, i :: 0 <= k < |words| && 0 <= i < |words[k]| ==> words[k][i] != ' '
    ensures Join(" ", Map(words, Capitalize)) == TitleCase(Join(" ", words))
  {
    if |words| == 1 {
      var w := words[0];
      assert Map(words, Capitalize) == [Capitalize(w)];
      forall i | 0 <= i < |w|
        ensures Capitalize(w)[i] == TitleCase(w)[i]
      {
      }
    } else if |words| > 1 {
      var caps := Map(words, Capitalize);
      JoinCapitalized(words[1..]);
      assert caps[1..] == Map(words[1..], Capitalize);
      TitleCaseAfterWord(words[0], Join(" ", words[1..]));
    }
  }

  /** `formatStatus` computes `TitleCase` whenever it does not throw. */
  lemma FormatStatusIsTitleCase(s: string)
    requires !HasEmptyWord(s)
    ensures FormatStatus(s) == Some(TitleCase(s))
  {
    JoinCapitalized(Split(s, ' '));
    JoinSplit(s, ' ');
  }

  /** Upper-casing leaves the space character alone and produces no new one. */
  lemma UpperCharSpace(c: char)
    ensures UpperChar(c) == ' ' <==> c == ' '
  {
  }

  /** Title case keeps every space in place and never creates an empty word. */
  lemma TitleCaseSameSpaces(s: string)
    ensures forall i :: 0 <= i < |s| ==> (TitleCase(s)[i] == ' ' <==> s[i] == ' ')
  {
    forall i | 0 <= i < |s|
      ensures TitleCase(s)[i] == ' ' <==> s[i] == ' '
    {
      UpperCharSpace(s[i]);
    }
  }

  /** The same characters are spaces in two strings, so they split into words
      of the same lengths; in particular both or neither has an empty word. */
  lemma {:induction false} SameSpacesSameEmptyWords(s: string, t: string)
    requires |s| == |t| && forall i :: 0 <= i < |s| ==> (s[i] == ' ' <==> t[i] == ' ')
    ensures |Split(s, ' ')| == |Split(t, ' ')|
    ensures forall k :: 0 <= k < |Split(s, ' ')| ==> |Split(s, ' ')[k]| == |Split(t, ' ')[k]|
    decreases |s|
  {
    if s != [] {
      SameSpacesSameEmptyWords(s[1..], t[1..]);
    }
  }

  /** Title case never creates an empty word. */
  lemma TitleCaseKeepsWords(s: string)
    requires !HasEmptyWord(s)
    ensures !HasEmptyWord(TitleCase(s))
  {
    var t := TitleCase(s);
    TitleCaseSameSpaces(s);
    SameSpacesSameEmptyWords(s, t);
    var ws, wt := Split(s, ' '), Split(t, ' ');
    forall k | 0 <= k < |wt|
      ensures wt[k] != []
    {
      assert ws[k] != [];
    }
  }

  /** `formatStatus` changes nothing in its own output. */
  lemma FormatStatusIdempotent(s: string)
    requires FormatStatus(s).Some?
    ensures FormatStatus(FormatStatus(s).value) == FormatStatus(s)
  {
    FormatStatusIsTitleCase(s);
    var t := TitleCase(s);
    TitleCaseKeepsWords(s);
    FormatStatusIsTitleCase(t);
    var tt := TitleCase(t);
    TitleCaseSameSpaces(s);
    forall i | 0 <= i < |t|
      ensures tt[i] == t[i]
    {
      if i == 0 || t[i - 1] == ' ' {
        UpperCharIdempotent(s[i]);
      }
    }
    assert tt == t;
  }

  /** `formatStatus` keeps the length and the word count of its input. */
  lemma FormatStatusKeepsShape(s: string)
    requires FormatStatus(s).Some?
    ensures |FormatStatus(s).value| == |s|
    ensures |Split(FormatStatus(s).value, ' ')| == |Split(s, ' ')|
  {
    FormatStatusIsTitleCase(s);
    TitleCaseSameSpaces(s);
    SameSpacesSameEmptyWords(s, TitleCase(s));
  }

  /** A single word is shown capitalised. */
  lemma OneWord(w: string)
    requires w != [] && forall i :: 0 <= i < |w| ==> w[i] != ' '
    ensures FormatStatus(w) == Some(Capitalize(w))
  {
    SplitWithoutSep(w, ' ');
    assert Map([w], Capitalize) == [Capitalize(w)];
  }

  /** Two words are each capitalised and keep the space between them
      ("in progress" is shown as "In Progress"). */
  lemma TwoWords(a: string, b: string)
    requires a != [] && b != []
    requires forall i :: 0 <= i < |a| ==> a[i] != ' '
    requires forall i :: 0 <= i < |b| ==> b[i] != ' '
    ensures FormatStatus(a + " " + b) == Some(Capitalize(a) + " " + Capitalize(b))
  {
    SplitAfterFirst(a, ' ', b);
    SplitWithoutSep(b, ' ');
    assert a + [' '] + b == a + " " + b;
    var words := [a, b];
    assert Split(a + " " + b, ' ') == words;
    assert Map(words, Capitalize) == [Capitalize(a), Capitalize(b)];
    assert Join(" ", [Capitalize(a), Capitalize(b)]) == Capitalize(a) + " " + Capitalize(b);
  }

  /** `formatDateISO` on the ISO text: everything before the first 'T'. */
  function DatePart(iso: string): (r: string)
    ensures |r| <= |iso| && r == iso[..|r|]
    ensures forall i :: 0 <= i < |r| ==> r[i] != 'T'
    ensures |r| < |iso| ==> iso[|r|] == 'T'
  {
    SplitHead(iso, 'T');
    Split(iso, 'T')[0]
  }

  /** The first piece of a split is the text before the first separator. */
  lemma {:induction false} SplitHead(s: string, sep: char)
    ensures var h := Split(s, sep)[0];
      |h| <= |s| && h == s[..|h|] && (|h| < |s| ==> s[|h|] == sep)
  {
    if s != [] && s[0] != sep {
      SplitHead(s[1..], sep);
    }
  }
}
