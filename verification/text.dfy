/**
 * The Python string operations the bot relies on: lower(), strip(), split(), join(),
 * replace(), endswith(), the `in` substring test and rstrip(c).
 */
module Text {

  /** Python's str.isspace(): ASCII tab..CR, the four separators 0x1C..0x1F, space,
      and the Unicode white-space characters. */
  predicate IsSpace(c: char)
  {
    || ('\t' <= c <= '\r')
    || ('\U{1C}' <= c <= ' ')
    || c == '\U{85}' || c == '\U{A0}' || c == '\U{1680}'
    || ('\U{2000}' <= c <= '\U{200A}')
    || c == '\U{2028}' || c == '\U{2029}' || c == '\U{202F}' || c == '\U{205F}' || c == '\U{3000}'
  }

  function LowerChar(c: char): char
  {
    if 'A' <= c <= 'Z' then (c as int + 32) as char else c
  }

  /** str.lower(), on the ASCII letters. */
  function Lower(s: string): (r: string)
    ensures |r| == |s|
  {
    if s == [] then [] else [LowerChar(s[0])] + Lower(s[1..])
  }

  predicate StartsWith(s: string, prefix: string)
  {
    |prefix| <= |s| && s[..|prefix|] == prefix
  }

  predicate EndsWith(s: string, suffix: string)
  {
    |suffix| <= |s| && s[|s| - |suffix|..] == suffix
  }

  /** Python's `p in s`. */
  predicate Contains(s: string, p: string)
    decreases |s|
  {
    StartsWith(s, p) || (s != [] && Contains(s[1..], p))
  }

  /** str.lstrip() with no argument. */
  function TrimStart(s: string): (r: string)
    ensures |r| <= |s|
  {
    if s != [] && IsSpace(s[0]) then TrimStart(s[1..]) else s
  }

  /** str.rstrip() with no argument. */
  function TrimEnd(s: string): (r: string)
    ensures |r| <= |s|
  {
    if s != [] && IsSpace(s[|s| - 1]) then TrimEnd(s[..|s| - 1]) else s
  }

  /** str.strip() with no argument. */
  function Strip(s: string): string
  {
    TrimEnd(TrimStart(s))
  }

  /** str.rstrip(c) for one character c. */
  function TrimEndChar(s: string, c: char): (r: string)
    ensures |r| <= |s|
  {
    if s != [] && s[|s| - 1] == c then TrimEndChar(s[..|s| - 1], c) else s
  }

  /** lstrip() removes exactly the leading white space: what is left is a suffix of s that
      does not start with a space, and everything cut off is space. */
  lemma {:induction false} TrimStartSpec(s: string)
    ensures var r := TrimStart(s);
      && (r == [] || !IsSpace(r[0]))
      && r == s[|s| - |r|..]
      && forall i :: 0 <= i < |s| - |r| ==> IsSpace(s[i])
    decreases |s|
  {
    if s != [] && IsSpace(s[0]) {
      TrimStartSpec(s[1..]);
      assert s[1..][|s| - 1 - |TrimStart(s)|..] == s[|s| - |TrimStart(s)|..];
    } else {
      assert s[0..] == s;
    }
  }

  /** rstrip() removes exactly the trailing white space. */
  lemma {:induction false} TrimEndSpec(s: string)
    ensures var r := TrimEnd(s);
      && (r == [] || !IsSpace(r[|r| - 1]))
      && r == s[..|r|]
      && forall i :: |r| <= i < |s| ==> IsSpace(s[i])
    decreases |s|
  {
    if s != [] && IsSpace(s[|s| - 1]) {
      TrimEndSpec(s[..|s| - 1]);
      assert s[..|s| - 1][..|TrimEnd(s)|] == s[..|TrimEnd(s)|];
    } else {
      assert s[..|s|] == s;
    }
  }

  /** rstrip(c) removes exactly the trailing run of c. */
  lemma {:induction false} TrimEndCharSpec(s: string, c: char)
    ensures var r := TrimEndChar(s, c);
      && (r == [] || r[|r| - 1] != c)
      && r == s[..|r|]
      && forall i :: |r| <= i < |s| ==> s[i] == c
    decreases |s|
  {
    if s != [] && s[|s| - 1] == c {
      TrimEndCharSpec(s[..|s| - 1], c);
      assert s[..|s| - 1][..|TrimEndChar(s, c)|] == s[..|TrimEndChar(s, c)|];
    } else {
      assert s[..|s|] == s;
    }
  }

  /** s.split()[0] for a string holding a non-space character: its first word. */
  function FirstWord(s: string): string
  {
    TakeWord(TrimStart(s))
  }

  /** The run of non-space characters that starts t. */
  function TakeWord(t: string): (w: string)
    ensures |w| <= |t|
  {
    if t == [] || IsSpace(t[0]) then [] else [t[0]] + TakeWord(t[1..])
  }

  /** The first word is what split() yields first: it starts the text left after the
      leading white space, holds no space, and is followed by a space or the end; it is
      empty only when the text is all white space. */
  lemma FirstWordSpec(s: string)
    ensures var t := TrimStart(s);
      var w := FirstWord(s);
      && StartsWith(t, w)
      && (forall i :: 0 <= i < |w| ==> !IsSpace(w[i]))
      && (|w| == |t| || IsSpace(t[|w|]))
      && (w == [] <==> forall i :: 0 <= i < |s| ==> IsSpace(s[i]))
  {
    var t := TrimStart(s);
    TrimStartSpec(s);
    TakeWordSpec(t);
    if t != [] {
      assert t[0] == s[|s| - |t|];
    }
  }

  lemma {:induction false} TakeWordSpec(t: string)
    ensures var w := TakeWord(t);
      && t[..|w|] == w
      && (forall i :: 0 <= i < |w| ==> !IsSpace(w[i]))
      && (|w| == |t| || IsSpace(t[|w|]))
      && (w == [] <==> t == [] || IsSpace(t[0]))
  {
    if t != [] && !IsSpace(t[0]) {
      TakeWordSpec(t[1..]);
      var w := TakeWord(t);
      assert w == [t[0]] + TakeWord(t[1..]);
      assert t == [t[0]] + t[1..];
    }
  }

  /** The first word of a company name, as split()[0] gives it: "Tata" for "Tata Steel". */
  lemma FirstWordOfName()
    ensures FirstWord("Tata Steel") == "Tata"
  {
    var s := "Tata Steel";
    assert TrimStart(s) == s;
    assert s[1..] == "ata Steel" && s[2..] == "ta Steel" && s[3..] == "a Steel";
    assert TakeWord(" Steel") == [];
  }

  /** str.split(sep) for a non-empty separator: the pieces between non-overlapping
      occurrences of sep, found left to right. */
  function Split(s: string, sep: string): (parts: seq<string>)
    requires sep != []
    ensures |parts| >= 1
    decreases |s|
  {
    if StartsWith(s, sep) then [""] + Split(s[|sep|..], sep)
    else if s == [] then [""]
    else
      var rest := Split(s[1..], sep);
      [[s[0]] + rest[0]] + rest[1..]
  }

  /** s.split(sep)[-1]. */
  function LastPiece(s: string, sep: string): string
    requires sep != []
  {
    var parts := Split(s, sep);
    parts[|parts| - 1]
  }

  /** sep.join(parts). */
  function Join(parts: seq<string>, sep: string): string
  {
    if parts == [] then ""
    else if |parts| == 1 then parts[0]
    else parts[0] + sep + Join(parts[1..], sep)
  }

  /** str.replace(pat, with) for a non-empty pattern: every non-overlapping occurrence,
      left to right. */
  function Replace(s: string, pat: string, with: string): string
    requires pat != []
    decreases |s|
  {
    if StartsWith(s, pat) then with + Replace(s[|pat|..], pat, with)
    else if s == [] then []
    else [s[0]] + Replace(s[1..], pat, with)
  }

  /** The piece after the last occurrence of sep is a suffix of s without sep in it;
      when s has an occurrence, that occurrence immediately precedes the piece. */
  lemma {:induction false} LastPieceFollowsLastSeparator(s: string, sep: string)
    requires sep != []
    ensures EndsWith(s, LastPiece(s, sep))
    ensures !Contains(LastPiece(s, sep), sep)
    ensures Contains(s, sep) ==> EndsWith(s, sep + LastPiece(s, sep))
    ensures !Contains(s, sep) ==> LastPiece(s, sep) == s
    decreases |s|
  {
    if !Contains(s, sep) {
      SplitWithoutSeparator(s, sep);
    } else if StartsWith(s, sep) {
      LastPieceAfterLeadingSeparator(s, sep);
    } else {
      LastPieceAfterFirstChar(s, sep);
    }
  }

  lemma {:induction false} LastPieceAfterLeadingSeparator(s: string, sep: string)
    requires sep != [] && StartsWith(s, sep)
    ensures EndsWith(s, LastPiece(s, sep))
    ensures !Contains(LastPiece(s, sep), sep)
    ensures EndsWith(s, sep + LastPiece(s, sep))
    decreases |s|, 0
  {
    var tail := s[|sep|..];
    LastPieceFollowsLastSeparator(tail, sep);
    assert s == sep + tail;
    var last := LastPiece(tail, sep);
    var rest := Split(tail, sep);
    assert Split(s, sep) == [""] + rest;
    assert LastPiece(s, sep) == last;
    EndsWithExtend(sep, tail, last);
    if Contains(tail, sep) {
      EndsWithExtend(sep, tail, sep + last);
    } else {
      assert sep + last == s;
    }
  }

  lemma {:induction false} LastPieceAfterFirstChar(s: string, sep: string)
    requires sep != [] && !StartsWith(s, sep) && Contains(s, sep)
    ensures EndsWith(s, LastPiece(s, sep))
    ensures !Contains(LastPiece(s, sep), sep)
    ensures EndsWith(s, sep + LastPiece(s, sep))
    decreases |s|, 0
  {
    var tail := s[1..];
    assert Contains(tail, sep);
    SplitWithSeparatorHasTwoPieces(tail, sep);
    LastPieceFollowsLastSeparator(tail, sep);
    var rest := Split(tail, sep);
    var last := rest[|rest| - 1];
    assert Split(s, sep) == [[s[0]] + rest[0]] + rest[1..];
    assert LastPiece(s, sep) == last;
    assert s == [s[0]] + tail;
    EndsWithExtend([s[0]], tail, last);
    EndsWithExtend([s[0]], tail, sep + last);
  }

  lemma EndsWithExtend(front: string, s: string, suffix: string)
    requires EndsWith(s, suffix)
    ensures EndsWith(front + s, suffix)
  {
    assert (front + s)[|front + s| - |suffix|..] == s[|s| - |suffix|..];
  }

  lemma {:induction false} SplitWithSeparatorHasTwoPieces(s: string, sep: string)
    requires sep != [] && Contains(s, sep)
    ensures |Split(s, sep)| >= 2
    decreases |s|
  {
    if !StartsWith(s, sep) {
      SplitWithSeparatorHasTwoPieces(s[1..], sep);
    }
  }

  lemma {:induction false} SplitWithoutSeparator(s: string, sep: string)
    requires sep != [] && !Contains(s, sep)
    ensures Split(s, sep) == [s]
    decreases |s|
  {
    if s != [] {
      SplitWithoutSeparator(s[1..], sep);
      assert [s[0]] + s[1..] == s;
    }
  }

  /** Splitting a one-character-separated join gives the pieces back, as long as no
      piece holds the separator (str.join and str.split are inverse). */
  lemma {:induction false} SplitJoinRoundTrip(parts: seq<string>, c: char)
    requires parts != []
    requires forall i :: 0 <= i < |parts| ==> c !in parts[i]
    ensures Split(Join(parts, [c]), [c]) == parts
  {
    if |parts| == 1 {
      NoCharNoSplit(parts[0], c);
    } else {
      SplitJoinRoundTrip(parts[1..], c);
      SplitAtFirstChar(parts[0], Join(parts[1..], [c]), c);
      assert [parts[0]] + parts[1..] == parts;
    }
  }

  lemma {:induction false} NoCharNoSplit(a: string, c: char)
    requires c !in a
    ensures Split(a, [c]) == [a]
    decreases |a|
  {
    if a != [] {
      assert a[0] in a;
      assert !StartsWith(a, [c]);
      NoCharNoSplit(a[1..], c);
      assert [a[0]] + a[1..] == a;
    }
  }

  lemma {:induction false} SplitAtFirstChar(a: string, rest: string, c: char)
    requires c !in a
    ensures Split(a + [c] + rest, [c]) == [a] + Split(rest, [c])
    decreases |a|
  {
    var s := a + [c] + rest;
    if a == [] {
      assert StartsWith(s, [c]);
      assert s[1..] == rest;
    } else {
      assert a[0] in a && s[0] == a[0];
      assert !StartsWith(s, [c]);
      SplitAtFirstChar(a[1..], rest, c);
      assert s[1..] == a[1..] + [c] + rest;
      assert [a[0]] + a[1..] == a;
    }
  }

  /** When the pattern occurs in s only as its suffix, replacing it by nothing cuts that
      suffix off: how `name.replace(' limited', '')` strips a company-name suffix. */
  lemma {:induction false} ReplaceSuffixOnly(s: string, pat: string)
    requires pat != [] && EndsWith(s, pat)
    requires forall i :: 0 <= i < |s| - |pat| ==> !StartsWith(s[i..], pat)
    ensures Replace(s, pat, "") == s[..|s| - |pat|]
    decreases |s|
  {
    if |s| == |pat| {
      assert s[0..] == s;
      assert StartsWith(s, pat);
      assert s[|pat|..] == [];
    } else {
      assert s[0..] == s;
      assert !StartsWith(s, pat);
      forall i | 0 <= i < |s[1..]| - |pat|
        ensures !StartsWith(s[1..][i..], pat)
      {
        assert s[1..][i..] == s[i + 1..];
      }
      assert s[1..][|s[1..]| - |pat|..] == s[|s| - |pat|..];
      ReplaceSuffixOnly(s[1..], pat);
      assert [s[0]] + s[1..][..|s| - 1 - |pat|] == s[..|s| - |pat|];
    }
  }
}
