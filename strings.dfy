/** The handful of Python `str` operations the animation code relies on:
    `split` on one character, `join`, `lower`, `strip` and the `in`
    substring test. */
module Strings {

  /** Python's `s.split(sep)` for a one-character separator: the pieces
      between separators, in order, empty pieces included. */
  function Split(s: string, sep: char): (parts: seq<string>)
    ensures |parts| >= 1
  {
    if s == [] then [[]]
    else
      var rest := Split(s[1..], sep);
      if s[0] == sep then [[]] + rest
      else [[s[0]] + rest[0]] + rest[1..]
  }

  /** Python's `sep.join(parts)`. */
  function Join(parts: seq<string>, sep: string): string
  {
    if |parts| == 0 then ""
    else if |parts| == 1 then parts[0]
    else parts[0] + sep + Join(parts[1..], sep)
  }

  /** Number of occurrences of `c` in `s`. */
  function Count(s: string, c: char): nat
  {
    if s == [] then 0 else (if s[0] == c then 1 else 0) + Count(s[1..], c)
  }

  /** Joining the pieces of a split with the separator gives the string back. */
  lemma {:induction false} JoinSplit(s: string, sep: char)
    ensures Join(Split(s, sep), [sep]) == s
  {
    if s != [] {
      var rest := Split(s[1..], sep);
      JoinSplit(s[1..], sep);
      if s[0] == sep {
        assert Split(s, sep) == [[]] + rest;
        assert Join([[]] + rest, [sep]) == [] + [sep] + Join(rest, [sep]) by {
          assert ([[]] + rest)[1..] == rest;
        }
      } else {
        var parts := [[s[0]] + rest[0]] + rest[1..];
        assert Split(s, sep) == parts;
        if |rest| == 1 {
          assert parts == [[s[0]] + rest[0]];
        } else {
          assert parts[1..] == rest[1..];
          assert Join(rest, [sep]) == rest[0] + [sep] + Join(rest[1..], [sep]);
          assert Join(parts, [sep]) == [s[0]] + rest[0] + [sep] + Join(rest[1..], [sep]);
        }
      }
    }
  }

  /** No piece of a split contains the separator, and there is one piece
      more than there are separators. */
  lemma {:induction false} SplitPieces(s: string, sep: char)
    ensures |Split(s, sep)| == Count(s, sep) + 1
    ensures forall i :: 0 <= i < |Split(s, sep)| ==> sep !in Split(s, sep)[i]
  {
    if s != [] {
      SplitPieces(s[1..], sep);
      var rest := Split(s[1..], sep);
      if s[0] != sep {
        var parts := [[s[0]] + rest[0]] + rest[1..];
        assert Split(s, sep) == parts;
        forall i | 0 <= i < |parts| ensures sep !in parts[i] {
          if i == 0 {
            assert sep !in rest[0];
          } else {
            assert parts[i] == rest[i];
          }
        }
      } else {
        assert Split(s, sep) == [[]] + rest;
        forall i | 1 <= i < |Split(s, sep)| ensures sep !in Split(s, sep)[i] {
          assert Split(s, sep)[i] == rest[i - 1];
        }
      }
    }
  }

  /** A string free of the separator splits into itself alone. */
  lemma {:induction false} SplitWithoutSeparator(s: string, sep: char)
    requires sep !in s
    ensures Split(s, sep) == [s]
  {
    if s != [] {
      SplitWithoutSeparator(s[1..], sep);
      assert [s[0]] + s[1..] == s;
    }
  }

  /** Splitting `a + sep + b` with `a` free of the separator peels `a` off. */
  lemma {:induction false} SplitAfterPiece(a: string, sep: char, b: string)
    requires sep !in a
    ensures Split(a + [sep] + b, sep) == [a] + Split(b, sep)
  {
    if a == [] {
      assert [] + [sep] + b == [sep] + b;
      assert ([sep] + b)[1..] == b;
    } else {
      SplitAfterPiece(a[1..], sep, b);
      var s := a + [sep] + b;
      assert s[0] == a[0] && s[1..] == a[1..] + [sep] + b;
      assert [a[0]] + a[1..] == a;
    }
  }

  /** ASCII upper case to lower case; every other character is kept. */
  function LowerChar(c: char): char
  {
    if 'A' <= c <= 'Z' then (c as int + 32) as char else c
  }

  /** Python's `s.lower()` on the ASCII letters. */
  function Lower(s: string): (r: string)
    ensures |r| == |s|
    ensures forall i :: 0 <= i < |s| ==> r[i] == LowerChar(s[i])
  {
    seq(|s|, i requires 0 <= i < |s| => LowerChar(s[i]))
  }

  /** The characters Python's `str.isspace()` accepts. */
  predicate IsSpace(c: char)
  {
    c == ' ' || ('\t' <= c <= '\r') || ('\U{1c}' <= c <= '\U{1f}') || c == '\U{85}' || c == '\U{a0}'
    || c == '\U{1680}' || ('\U{2000}' <= c <= '\U{200a}') || c == '\U{2028}' || c == '\U{2029}'
    || c == '\U{202f}' || c == '\U{205f}' || c == '\U{3000}'
  }

  function StripLeft(s: string): (r: string)
    ensures r == [] || !IsSpace(r[0])
    ensures |r| <= |s| && r == s[|s| - |r|..]
  {
    if s != [] && IsSpace(s[0]) then StripLeft(s[1..]) else s
  }

  function StripRight(s: string): (r: string)
    ensures r == [] || !IsSpace(r[|r| - 1])
    ensures |r| <= |s| && r == s[..|r|]
  {
    if s != [] && IsSpace(s[|s| - 1]) then StripRight(s[..|s| - 1]) else s
  }

  /** Python's `s.strip()`: whitespace removed from both ends. */
  function Strip(s: string): (r: string)
    ensures r == [] || (!IsSpace(r[0]) && !IsSpace(r[|r| - 1]))
  {
    var l := StripLeft(s);
    var r := StripRight(l);
    assert r != [] ==> r[0] == l[0];
    r
  }

  /** A string without whitespace at either end is its own strip. */
  lemma StripUnchanged(s: string)
    requires s == [] || (!IsSpace(s[0]) && !IsSpace(s[|s| - 1]))
    ensures Strip(s) == s
  {
    assert StripLeft(s) == s;
  }

  /** Removing trailing whitespace keeps a string that starts with a
      non-space character non-empty. */
  lemma {:induction false} StripRightKeepsHead(s: string)
    requires s != [] && !IsSpace(s[0])
    ensures StripRight(s) != []
  {
    if IsSpace(s[|s| - 1]) {
      assert |s| > 1;
      StripRightKeepsHead(s[..|s| - 1]);
    }
  }

  /** Stripping leaves something as soon as one character is not whitespace. */
  lemma {:induction false} StripNonBlank(s: string, i: nat)
    requires i < |s| && !IsSpace(s[i])
    ensures Strip(s) != []
  {
    var l := StripLeft(s);
    if l == [] {
      StripLeftRemovesOnlySpaces(s);
      assert false;
    }
    StripRightKeepsHead(l);
  }

  lemma {:induction false} StripLeftRemovesOnlySpaces(s: string)
    ensures forall k :: 0 <= k < |s| - |StripLeft(s)| ==> IsSpace(s[k])
  {
    if s != [] && IsSpace(s[0]) {
      StripLeftRemovesOnlySpaces(s[1..]);
      forall k | 1 <= k < |s| - |StripLeft(s)| ensures IsSpace(s[k]) {
        assert s[k] == s[1..][k - 1];
      }
    }
  }

  /** Python's `sub in s`. */
  predicate Contains(s: string, sub: string)
    decreases |s|
  {
    sub <= s || (s != [] && Contains(s[1..], sub))
  }

  /** Where a substring test succeeds, the substring occurs at some index. */
  lemma {:induction false} ContainsAt(s: string, sub: string) returns (i: nat)
    requires Contains(s, sub)
    ensures i + |sub| <= |s| && s[i..i + |sub|] == sub
  {
    if sub <= s {
      i := 0;
    } else {
      var j := ContainsAt(s[1..], sub);
      i := j + 1;
      assert s[i..i + |sub|] == s[1..][j..j + |sub|];
    }
  }

  /** A string whose lower-case form contains a non-blank keyword has
      something left after stripping. */
  lemma StripOfKeywordHolder(s: string, keyword: string)
    requires keyword != [] && !IsSpace(keyword[0])
    requires Contains(Lower(s), keyword)
    ensures Strip(s) != []
  {
    var i := ContainsAt(Lower(s), keyword);
    assert Lower(s)[i] == keyword[0];
    StripNonBlank(s, i);
  }

  /** Python's `a < b` on strings: the first differing character decides,
      and a proper prefix comes first. */
  predicate LexLess(a: string, b: string)
  {
    if a == [] then b != []
    else if b == [] then false
    else if a[0] != b[0] then a[0] < b[0]
    else LexLess(a[1..], b[1..])
  }

  /** A common prefix does not change how two strings compare. */
  lemma {:induction false} LexLessAfterPrefix(p: string, a: string, b: string)
    ensures LexLess(p + a, p + b) == LexLess(a, b)
  {
    if p == [] {
      assert p + a == a && p + b == b;
    } else {
      assert (p + a)[0] == p[0] == (p + b)[0];
      assert (p + a)[1..] == p[1..] + a && (p + b)[1..] == p[1..] + b;
      LexLessAfterPrefix(p[1..], a, b);
    }
  }

  /** Once two equally long strings compare, whatever follows them does not matter. */
  lemma {:induction false} LexLessBeforeSuffix(a: string, b: string, x: string, y: string)
    requires |a| == |b| && LexLess(a, b)
    ensures LexLess(a + x, b + y)
  {
    if a[0] == b[0] {
      assert (a + x)[1..] == a[1..] + x && (b + y)[1..] == b[1..] + y;
      LexLessBeforeSuffix(a[1..], b[1..], x, y);
    }
  }

  /** Python's `os.path.join(directory, name)` on POSIX paths. */
  function PathJoin(directory: string, name: string): string
  {
    if name != [] && name[0] == '/' then name
    else if directory == [] || directory[|directory| - 1] == '/' then directory + name
    else directory + "/" + name
  }

  /** What `PathJoin` puts in front of `name`. */
  function JoinPrefix(directory: string, name: string): string
  {
    if name != [] && name[0] == '/' then []
    else if directory == [] || directory[|directory| - 1] == '/' then directory
    else directory + "/"
  }

  /** An absolute name replaces the directory; otherwise the result starts
      with the directory, ends with the name, and has one separator between
      them unless the directory already ends with one. */
  lemma PathJoinShape(directory: string, name: string)
    ensures name != [] && name[0] == '/' ==> PathJoin(directory, name) == name
    ensures !(name != [] && name[0] == '/') ==>
              (var r := PathJoin(directory, name);
               |r| >= |directory| + |name| && r[..|directory|] == directory && r[|r| - |name|..] == name
               && (directory != [] && directory[|directory| - 1] != '/' ==> |r| == |directory| + |name| + 1))
  {
    if !(name != [] && name[0] == '/') {
      var r := PathJoin(directory, name);
      var q := JoinPrefix(directory, name);
      assert r == q + name;
      assert r[..|directory|] == directory;
      assert r[|r| - |name|..] == name;
    }
  }

  lemma PathJoinParts(directory: string, name: string)
    ensures PathJoin(directory, name) == JoinPrefix(directory, name) + name
  {
  }

  /** Names that share a relative stem and an extension are joined behind
      the same prefix, so the joined paths compare as their middles do. */
  lemma PathJoinStem(directory: string, stem: string, x: string, ext: string)
    requires stem != [] && stem[0] != '/'
    ensures PathJoin(directory, stem + x + ext) == (JoinPrefix(directory, stem) + stem) + (x + ext)
  {
    var name := stem + x + ext;
    assert name[0] == stem[0];
    PathJoinParts(directory, name);
    assert JoinPrefix(directory, name) == JoinPrefix(directory, stem);
  }

  lemma PathJoinCancel(directory: string, stem: string, x: string, y: string, ext: string)
    requires stem != [] && stem[0] != '/'
    requires PathJoin(directory, stem + x + ext) == PathJoin(directory, stem + y + ext)
    ensures x == y
  {
    PathJoinStem(directory, stem, x, ext);
    PathJoinStem(directory, stem, y, ext);
    var p := JoinPrefix(directory, stem) + stem;
    var s := PathJoin(directory, stem + x + ext);
    assert |x| == |y|;
    forall k | 0 <= k < |x| ensures x[k] == y[k] {
      assert s[|p| + k] == x[k];
      assert s[|p| + k] == y[k];
    }
  }

  lemma PathJoinOrdered(directory: string, stem: string, x: string, y: string, ext: string)
    requires stem != [] && stem[0] != '/'
    requires |x| == |y| && LexLess(x, y)
    ensures LexLess(PathJoin(directory, stem + x + ext), PathJoin(directory, stem + y + ext))
  {
    PathJoinStem(directory, stem, x, ext);
    PathJoinStem(directory, stem, y, ext);
    LexLessBeforeSuffix(x, y, ext, ext);
    LexLessAfterPrefix(JoinPrefix(directory, stem) + stem, x + ext, y + ext);
  }
}
