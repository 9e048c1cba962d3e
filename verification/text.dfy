/**
 * The handful of Python string operations the pipeline relies on:
 * `str.split(sep)`, `str.split()`, `str.strip()`, `str.lower()`/`upper()`,
 * `isupper`/`isdigit` on a character, substring tests, `str.replace(c, '')`
 * and `sep.join(parts)`. Character classes are those of ASCII.
 */
module Text {

  /** Characters Python's `str.split()` and `str.strip()` treat as whitespace (ASCII part). */
  predicate IsSpace(c: char) {
    || c == ' ' || c == '\t' || c == '\n' || c == '\U{000B}' || c == '\U{000C}' || c == '\r'
    || c == '\U{001C}' || c == '\U{001D}' || c == '\U{001E}' || c == '\U{001F}'
  }

  predicate IsUpper(c: char) { 'A' <= c <= 'Z' }

  predicate IsDigit(c: char) { '0' <= c <= '9' }

  function LowerChar(c: char): char {
    if IsUpper(c) then (c as int - 'A' as int + 'a' as int) as char else c
  }

  function UpperChar(c: char): char {
    if 'a' <= c <= 'z' then (c as int - 'a' as int + 'A' as int) as char else c
  }

  function Lower(s: string): (r: string)
    ensures |r| == |s|
    ensures forall i :: 0 <= i < |s| ==> r[i] == LowerChar(s[i])
  {
    seq(|s|, i => if 0 <= i < |s| then LowerChar(s[i]) else ' ')
  }

  function Upper(s: string): (r: string)
    ensures |r| == |s|
    ensures forall i :: 0 <= i < |s| ==> r[i] == UpperChar(s[i])
  {
    seq(|s|, i => if 0 <= i < |s| then UpperChar(s[i]) else ' ')
  }

  /** Lower-casing after upper-casing gives the lower-cased text. */
  lemma LowerUpper(s: string)
    ensures Lower(Upper(s)) == Lower(s)
  {
    assert forall i :: 0 <= i < |s| ==> LowerChar(UpperChar(s[i])) == LowerChar(s[i]);
  }

  /** Upper-casing after lower-casing gives the upper-cased text. */
  lemma UpperLower(s: string)
    ensures Upper(Lower(s)) == Upper(s)
  {
    assert forall i :: 0 <= i < |s| ==> UpperChar(LowerChar(s[i])) == UpperChar(s[i]);
  }

  /** A lower-case text equal to `s` up to case is `s` lower-cased. */
  lemma LowerIsUnique(r: string, s: string)
    requires Lower(r) == r && Upper(r) == Upper(s)
    ensures r == Lower(s)
  {
    LowerUpper(r);
    LowerUpper(s);
  }

  /** `any(c.isdigit() for c in s)` */
  predicate HasDigit(s: string) {
    exists i :: 0 <= i < |s| && IsDigit(s[i])
  }

  predicate OccursAt(s: string, sub: string, i: int) {
    0 <= i <= |s| - |sub| && s[i..i + |sub|] == sub
  }

  /** Python's `sub in s`. */
  predicate Contains(s: string, sub: string) {
    exists i :: 0 <= i <= |s| && OccursAt(s, sub, i)
  }

  lemma ContainsSelf(s: string)
    ensures Contains(s, s)
  {
    assert OccursAt(s, s, 0);
  }

  /** A prefix of `s` that is a witness of containment. */
  lemma ContainsPrefix(s: string, sub: string)
    requires |sub| <= |s| && s[..|sub|] == sub
    ensures Contains(s, sub)
  {
    assert OccursAt(s, sub, 0);
  }

  // ---------------------------------------------------------------------------
  // str.split(sep) and sep.join(parts)
  // ---------------------------------------------------------------------------

  function IndexOf(s: string, c: char): (i: nat)
    requires c in s
    ensures i < |s| && s[i] == c && c !in s[..i]
  {
    if s[0] == c then 0 else 1 + IndexOf(s[1..], c)
  }

  /** Python's `s.split(sep)` for a one-character separator: every piece, empty ones included. */
  function SplitOn(s: string, sep: char): (parts: seq<string>)
    ensures |parts| >= 1
    ensures forall i :: 0 <= i < |parts| ==> sep !in parts[i]
    decreases |s|
  {
    if sep !in s then [s]
    else
      var i := IndexOf(s, sep);
      [s[..i]] + SplitOn(s[i + 1..], sep)
  }

  /** Python's `sep.join(parts)`. */
  function Join(parts: seq<string>, sep: string): string {
    if |parts| == 0 then ""
    else if |parts| == 1 then parts[0]
    else parts[0] + sep + Join(parts[1..], sep)
  }

  /** Splitting and joining back on the same character gives the text back. */
  lemma {:induction false} JoinSplit(s: string, sep: char)
    ensures Join(SplitOn(s, sep), [sep]) == s
    decreases |s|
  {
    if sep in s {
      var i := IndexOf(s, sep);
      var rest := s[i + 1..];
      JoinSplit(rest, sep);
      var tail := SplitOn(rest, sep);
      assert SplitOn(s, sep) == [s[..i]] + tail;
      assert (([s[..i]] + tail)[1..]) == tail;
      assert s == s[..i] + [sep] + rest;
    }
  }

  /** The first piece of a text that starts with a separator-free piece and the separator. */
  lemma SplitFirst(first: string, rest: string, sep: char)
    requires sep !in first
    ensures SplitOn(first + [sep] + rest, sep) == [first] + SplitOn(rest, sep)
  {
    var s := first + [sep] + rest;
    assert s[|first|] == sep;
    var i := IndexOf(s, sep);
    assert s[..i] == first[..i];
    assert i == |first|;
    assert s[..i] == first && s[i + 1..] == rest;
  }

  /** Joining pieces free of the separator and splitting again gives the pieces back. */
  lemma {:induction false} SplitJoin(parts: seq<string>, sep: char)
    requires |parts| >= 1
    requires forall i :: 0 <= i < |parts| ==> sep !in parts[i]
    ensures SplitOn(Join(parts, [sep]), sep) == parts
  {
    if |parts| > 1 {
      SplitJoin(parts[1..], sep);
      assert Join(parts, [sep]) == parts[0] + [sep] + Join(parts[1..], [sep]);
      SplitFirst(parts[0], Join(parts[1..], [sep]), sep);
    }
  }

  // ---------------------------------------------------------------------------
  // str.strip() and str.strip(chars)
  // ---------------------------------------------------------------------------

  /** `r` is the slice of `s` starting at `a`. */
  predicate SliceAt(s: string, r: string, a: int) {
    0 <= a <= |s| - |r| && r == s[a..a + |r|]
  }

  /** Every character of `s` before `a` and from `b` on is whitespace. */
  predicate SpacesOutside(s: string, a: int, b: int) {
    && (forall k :: 0 <= k < a && k < |s| ==> IsSpace(s[k]))
    && (forall k :: 0 <= b <= k < |s| ==> IsSpace(s[k]))
  }

  /** Every character of `s` before `a` and from `b` on is in `chars`. */
  predicate CharsOutside(s: string, a: int, b: int, chars: set<char>) {
    && (forall k :: 0 <= k < a && k < |s| ==> s[k] in chars)
    && (forall k :: 0 <= b <= k < |s| ==> s[k] in chars)
  }

  /** `r` is a slice of `s` with only whitespace around it. */
  ghost predicate SpaceTrimmed(s: string, r: string) {
    exists a :: SliceAt(s, r, a) && SpacesOutside(s, a, a + |r|)
  }

  /** `r` is a slice of `s` with only characters of `chars` around it. */
  ghost predicate CharsTrimmed(s: string, r: string, chars: set<char>) {
    exists a :: SliceAt(s, r, a) && CharsOutside(s, a, a + |r|, chars)
  }

  /** Python's `s.lstrip()`. */
  function SkipSpaces(s: string): (r: string)
    ensures |r| <= |s| && r == s[|s| - |r|..]
    ensures r == [] || !IsSpace(r[0])
  {
    if |s| > 0 && IsSpace(s[0]) then SkipSpaces(s[1..]) else s
  }

  /** Python's `s.rstrip()`. */
  function DropTrailingSpaces(s: string): (r: string)
    ensures |r| <= |s| && r == s[..|r|]
    ensures r == [] || !IsSpace(r[|r| - 1])
  {
    if |s| > 0 && IsSpace(s[|s| - 1]) then DropTrailingSpaces(s[..|s| - 1]) else s
  }

  /** What `SkipSpaces` drops is whitespace. */
  lemma {:induction false} SkipSpacesDropsSpaces(s: string)
    ensures SpacesOutside(s, |s| - |SkipSpaces(s)|, |s|)
  {
    if |s| > 0 && IsSpace(s[0]) {
      var t := s[1..];
      SkipSpacesDropsSpaces(t);
      assert SkipSpaces(s) == SkipSpaces(t);
      var a := |s| - |SkipSpaces(t)|;
      forall k | 0 <= k < a && k < |s| ensures IsSpace(s[k]) {
        if k > 0 {
          assert s[k] == t[k - 1];
          assert 0 <= k - 1 < |t| - |SkipSpaces(t)|;
        }
      }
    }
  }

  /** What `DropTrailingSpaces` drops is whitespace. */
  lemma {:induction false} DropTrailingDropsSpaces(s: string)
    ensures SpacesOutside(s, 0, |DropTrailingSpaces(s)|)
  {
    if |s| > 0 && IsSpace(s[|s| - 1]) {
      DropTrailingDropsSpaces(s[..|s| - 1]);
      assert forall k :: 0 <= k < |s| - 1 ==> s[k] == s[..|s| - 1][k];
    }
  }

  /** Dropping whitespace from the front and then from the back leaves a slice of `s` with
      only whitespace around it. */
  lemma SpacesAround(s: string)
    ensures SpaceTrimmed(s, DropTrailingSpaces(SkipSpaces(s)))
  {
    var l := SkipSpaces(s);
    var r := DropTrailingSpaces(l);
    SkipSpacesDropsSpaces(s);
    DropTrailingDropsSpaces(l);
    var a := |s| - |l|;
    forall k | a + |r| <= k < |s| ensures IsSpace(s[k]) {
      assert s[k] == l[k - a];
    }
    assert SliceAt(s, r, a) && SpacesOutside(s, a, a + |r|);
  }

  /** Python's `s.strip()`: the slice of `s` that neither starts nor ends with whitespace
      and outside which every character is whitespace. */
  function Strip(s: string): (r: string)
    ensures SpaceTrimmed(s, r)
    ensures r == [] || (!IsSpace(r[0]) && !IsSpace(r[|r| - 1]))
  {
    var l := SkipSpaces(s);
    var r := DropTrailingSpaces(l);
    SpacesAround(s);
    r
  }

  /** A character absent from a text is absent from every slice of it. */
  lemma SliceKeepsOut(s: string, r: string, a: int, c: char)
    requires SliceAt(s, r, a) && c !in s
    ensures c !in r
  {
    assert forall i :: 0 <= i < |r| ==> r[i] == s[a + i];
  }

  /** Python's `s.lstrip(chars)` for a set of characters. */
  function StripLeading(s: string, chars: set<char>): (r: string)
    ensures |r| <= |s| && r == s[|s| - |r|..]
    ensures r == [] || r[0] !in chars
  {
    if |s| > 0 && s[0] in chars then StripLeading(s[1..], chars) else s
  }

  /** Python's `s.rstrip(chars)` for a set of characters. */
  function StripTrailing(s: string, chars: set<char>): (r: string)
    ensures |r| <= |s| && r == s[..|r|]
    ensures r == [] || r[|r| - 1] !in chars
  {
    if |s| > 0 && s[|s| - 1] in chars then StripTrailing(s[..|s| - 1], chars) else s
  }

  /** What `StripLeading` drops is in `chars`. */
  lemma {:induction false} StripLeadingDropsChars(s: string, chars: set<char>)
    ensures CharsOutside(s, |s| - |StripLeading(s, chars)|, |s|, chars)
  {
    if |s| > 0 && s[0] in chars {
      var t := s[1..];
      StripLeadingDropsChars(t, chars);
      var a := |s| - |StripLeading(s, chars)|;
      assert a - 1 == |t| - |StripLeading(t, chars)|;
      forall k | 0 <= k < a && k < |s| ensures s[k] in chars {
        if k > 0 { assert s[k] == t[k - 1]; }
      }
    }
  }

  /** What `StripTrailing` drops is in `chars`. */
  lemma {:induction false} StripTrailingDropsChars(s: string, chars: set<char>)
    ensures CharsOutside(s, 0, |StripTrailing(s, chars)|, chars)
  {
    if |s| > 0 && s[|s| - 1] in chars {
      StripTrailingDropsChars(s[..|s| - 1], chars);
      assert forall k :: 0 <= k < |s| - 1 ==> s[k] == s[..|s| - 1][k];
    }
  }

  /** Dropping `chars` from the front and then from the back leaves a slice of `s` with only
      `chars` around it. */
  lemma CharsAround(s: string, chars: set<char>)
    ensures CharsTrimmed(s, StripTrailing(StripLeading(s, chars), chars), chars)
  {
    var l := StripLeading(s, chars);
    var r := StripTrailing(l, chars);
    StripLeadingDropsChars(s, chars);
    StripTrailingDropsChars(l, chars);
    var a := |s| - |l|;
    forall k | a + |r| <= k < |s| ensures s[k] in chars {
      assert s[k] == l[k - a];
    }
    assert SliceAt(s, r, a) && CharsOutside(s, a, a + |r|, chars);
  }

  /** Python's `s.strip(chars)` for a set of characters: the slice of `s` that neither
      starts nor ends with one of `chars` and outside which every character is one of them. */
  function StripChars(s: string, chars: set<char>): (r: string)
    ensures CharsTrimmed(s, r, chars)
    ensures r == [] || (r[0] !in chars && r[|r| - 1] !in chars)
  {
    var l := StripLeading(s, chars);
    var r := StripTrailing(l, chars);
    CharsAround(s, chars);
    r
  }

  // ---------------------------------------------------------------------------
  // str.split() on whitespace
  // ---------------------------------------------------------------------------

  /** A non-empty run of non-whitespace characters. */
  predicate IsWord(w: string) {
    |w| > 0 && forall k :: 0 <= k < |w| ==> !IsSpace(w[k])
  }

  /** Some word of `ws` contains a digit. */
  predicate AnyHasDigit(ws: seq<string>) {
    exists j :: 0 <= j < |ws| && HasDigit(ws[j])
  }

  /** The words of `s`, given the partial word `cur` read just before it. */
  function WordsFrom(s: string, cur: string): seq<string>
    decreases |s|
  {
    if |s| == 0 then (if |cur| == 0 then [] else [cur])
    else if IsSpace(s[0]) then
      (if |cur| == 0 then [] else [cur]) + WordsFrom(s[1..], "")
    else WordsFrom(s[1..], cur + [s[0]])
  }

  /** Python's `s.split()`: the maximal runs of non-whitespace characters, in order. */
  function Words(s: string): seq<string> {
    WordsFrom(s, "")
  }

  lemma HasDigitCons(c: char, s: string)
    ensures HasDigit([c] + s) <==> IsDigit(c) || HasDigit(s)
  {
    var cs := [c] + s;
    if HasDigit(s) {
      var i :| 0 <= i < |s| && IsDigit(s[i]);
      assert cs[i + 1] == s[i];
    }
    if HasDigit(cs) {
      var i :| 0 <= i < |cs| && IsDigit(cs[i]);
      if i > 0 { assert cs[i] == s[i - 1]; }
    }
    assert cs[0] == c;
  }

  lemma HasDigitSnoc(s: string, c: char)
    ensures HasDigit(s + [c]) <==> HasDigit(s) || IsDigit(c)
  {
    var cs := s + [c];
    if HasDigit(s) {
      var i :| 0 <= i < |s| && IsDigit(s[i]);
      assert cs[i] == s[i];
    }
    if HasDigit(cs) {
      var i :| 0 <= i < |cs| && IsDigit(cs[i]);
      if i < |s| { assert cs[i] == s[i]; }
    }
    assert cs[|s|] == c;
  }

  lemma AnyHasDigitCons(w: string, ws: seq<string>)
    ensures AnyHasDigit([w] + ws) <==> HasDigit(w) || AnyHasDigit(ws)
  {
    var all := [w] + ws;
    assert all[0] == w;
    if AnyHasDigit(ws) {
      var j :| 0 <= j < |ws| && HasDigit(ws[j]);
      assert all[j + 1] == ws[j];
    }
    if AnyHasDigit(all) {
      var j :| 0 <= j < |all| && HasDigit(all[j]);
      if j > 0 { assert all[j] == ws[j - 1]; }
    }
  }

  /** A digit occurs in the partial word or the rest of the text exactly when it occurs in
      one of the resulting words. */
  lemma {:induction false} DigitInWordsFrom(s: string, cur: string)
    ensures HasDigit(cur) || HasDigit(s) <==> AnyHasDigit(WordsFrom(s, cur))
    decreases |s|
  {
    if |s| == 0 {
      if |cur| > 0 { AnyHasDigitCons(cur, []); }
      assert !HasDigit(s);
    } else {
      HasDigitCons(s[0], s[1..]);
      assert s == [s[0]] + s[1..];
      if IsSpace(s[0]) {
        DigitInWordsFrom(s[1..], "");
        assert !HasDigit("");
        if |cur| > 0 {
          AnyHasDigitCons(cur, WordsFrom(s[1..], ""));
        } else {
          assert WordsFrom(s, cur) == WordsFrom(s[1..], "");
        }
      } else {
        DigitInWordsFrom(s[1..], cur + [s[0]]);
        HasDigitSnoc(cur, s[0]);
      }
    }
  }

  /** Every piece is a non-empty run of non-whitespace characters. */
  lemma {:induction false} WordsFromAreWords(s: string, cur: string)
    requires forall k :: 0 <= k < |cur| ==> !IsSpace(cur[k])
    ensures forall i :: 0 <= i < |WordsFrom(s, cur)| ==> IsWord(WordsFrom(s, cur)[i])
    decreases |s|
  {
    if |s| > 0 {
      if IsSpace(s[0]) {
        WordsFromAreWords(s[1..], "");
        var rest := WordsFrom(s[1..], "");
        var ws := WordsFrom(s, cur);
        if |cur| > 0 {
          assert ws == [cur] + rest;
          assert forall i :: 1 <= i < |ws| ==> ws[i] == rest[i - 1];
        }
      } else {
        var next := cur + [s[0]];
        assert forall k :: 0 <= k < |next| ==> !IsSpace(next[k]);
        WordsFromAreWords(s[1..], next);
      }
    }
  }

  /** A digit occurs in the text exactly when it occurs in one of its words. */
  lemma DigitInWords(s: string)
    ensures HasDigit(s) <==> AnyHasDigit(Words(s))
  {
    DigitInWordsFrom(s, "");
  }

  /** Every piece `split()` returns is a non-empty run of non-whitespace characters. */
  lemma WordsAreWords(s: string)
    ensures forall i :: 0 <= i < |Words(s)| ==> IsWord(Words(s)[i])
  {
    WordsFromAreWords(s, "");
  }

  // ---------------------------------------------------------------------------
  // str.replace(c, '')
  // ---------------------------------------------------------------------------

  /** Python's `s.replace(c, '')`: every other character is kept, in order (see
      `RemoveCharAppend` and `RemoveCharIsJoinSplit`). */
  function RemoveChar(s: string, c: char): (r: string)
    ensures c !in r
    ensures c !in s ==> r == s
  {
    if |s| == 0 then ""
    else
      assert s == [s[0]] + s[1..];
      (if s[0] == c then "" else [s[0]]) + RemoveChar(s[1..], c)
  }

  /** Every character other than `c` occurs as often after the removal as before. */
  lemma {:induction false} RemoveCharKeepsOthers(s: string, c: char)
    ensures forall x :: x != c ==> multiset(RemoveChar(s, c))[x] == multiset(s)[x]
    decreases |s|
  {
    if |s| > 0 {
      RemoveCharKeepsOthers(s[1..], c);
      assert s == [s[0]] + s[1..];
    }
  }

  /** Removing a character distributes over concatenation, so the kept characters stay in
      their order. */
  lemma {:induction false} RemoveCharAppend(a: string, b: string, c: char)
    ensures RemoveChar(a + b, c) == RemoveChar(a, c) + RemoveChar(b, c)
    decreases |a|
  {
    if |a| > 0 {
      var ab := a + b;
      assert ab[0] == a[0] && ab[1..] == a[1..] + b;
      RemoveCharAppend(a[1..], b, c);
      var h := if a[0] == c then "" else [a[0]];
      assert RemoveChar(ab, c) == h + RemoveChar(a[1..] + b, c);
      assert RemoveChar(a, c) == h + RemoveChar(a[1..], c);
    } else {
      assert a + b == b;
    }
  }

  /** A text free of `c` loses nothing. */
  lemma RemoveCharAbsent(s: string, c: char)
    requires c !in s
    ensures RemoveChar(s, c) == s
  {
  }

  /** Removing `c` from a text that starts with a `c`-free piece and a `c`. */
  lemma {:induction false} RemoveCharFirst(first: string, rest: string, c: char)
    requires c !in first
    ensures RemoveChar(first + ([c] + rest), c) == first + RemoveChar(rest, c)
  {
    RemoveCharAppend(first, [c] + rest, c);
    RemoveCharHead(c, rest, c);
    assert RemoveChar(first, c) == first;
    assert RemoveChar([c] + rest, c) == RemoveChar(rest, c);
  }

  /** Removing `c` from a text with a known first character. */
  lemma RemoveCharHead(x: char, t: string, c: char)
    ensures RemoveChar([x] + t, c) == (if x == c then [] else [x]) + RemoveChar(t, c)
  {
    assert ([x] + t)[0] == x && ([x] + t)[1..] == t;
  }

  /** Joining with the empty separator puts the first piece in front. */
  lemma {:induction false} JoinEmptyCons(first: string, tail: seq<string>)
    requires |tail| >= 1
    ensures Join([first] + tail, "") == first + Join(tail, "")
  {
    var parts := [first] + tail;
    assert parts[0] == first && parts[1..] == tail;
    assert Join(parts, "") == first + "" + Join(tail, "");
    assert first + "" == first;
  }

  /** `s.replace(c, '')` equals `''.join(s.split(c))`. */
  lemma {:induction false} RemoveCharIsJoinSplit(s: string, c: char)
    ensures RemoveChar(s, c) == Join(SplitOn(s, c), "")
    decreases |s|
  {
    if c in s {
      var i := IndexOf(s, c);
      var first, rest := s[..i], s[i + 1..];
      assert s == first + [c] + rest;
      assert s == first + ([c] + rest);
      RemoveCharIsJoinSplit(rest, c);
      RemoveCharFirst(first, rest, c);
      SplitFirst(first, rest, c);
      JoinEmptyCons(first, SplitOn(rest, c));
    } else {
      RemoveCharAbsent(s, c);
    }
  }
}
