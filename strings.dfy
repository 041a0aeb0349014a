/** Character classes and string operations the Python code takes from `str` and `re`. */
module Strings {

  predicate IsUpper(c: char) { 'A' <= c <= 'Z' }
  predicate IsLowerAlnum(c: char) { 'a' <= c <= 'z' || '0' <= c <= '9' }
  /** The class `[a-zA-Z0-9_]` of the tokenizer's regular expression. */
  predicate IsWordChar(c: char) { IsUpper(c) || IsLowerAlnum(c) || c == '_' }

  /** Python's `str.isspace`, the characters `split()` and `strip()` treat as blank. */
  predicate IsSpace(c: char)
  {
    ('\U{9}' <= c <= '\U{d}') || ('\U{1c}' <= c <= '\U{20}') || c == '\U{85}' || c == '\U{a0}'
    || c == '\U{1680}' || ('\U{2000}' <= c <= '\U{200a}') || c == '\U{2028}' || c == '\U{2029}'
    || c == '\U{202f}' || c == '\U{205f}' || c == '\U{3000}'
  }
  predicate NotSpace(c: char) { !IsSpace(c) }

  /** `not s.strip()`: the string is empty or all whitespace. */
  predicate IsBlank(s: string) { forall i :: 0 <= i < |s| ==> IsSpace(s[i]) }

  function LowerChar(c: char): char
  {
    if IsUpper(c) then (c as int + 32) as char else c
  }

  /** `str.lower()` on the ASCII letters (other characters are kept). */
  function Lower(s: string): (r: string)
    ensures |r| == |s|
    ensures forall i :: 0 <= i < |s| ==> !IsUpper(r[i])
    ensures forall i :: 0 <= i < |s| ==> (IsWordChar(s[i]) <==> IsWordChar(r[i]))
    ensures forall i :: 0 <= i < |s| ==> (IsSpace(s[i]) <==> IsSpace(r[i]))
  {
    seq(|s|, i requires 0 <= i < |s| => LowerChar(s[i]))
  }

  predicate HasNoUpper(s: string) { forall i :: 0 <= i < |s| ==> !IsUpper(s[i]) }

  lemma {:induction false} LowerOfLowercase(s: string)
    requires HasNoUpper(s)
    ensures Lower(s) == s
  {
  }

  // ---------------------------------------------------------------------------
  // `str.split(sep)` and `sep.join(parts)`

  /** Python's `s.split(sep)` for a one-character separator: always at least one piece. */
  function SplitOn(s: string, sep: char): (r: seq<string>)
    ensures |r| >= 1
  {
    if s == [] then [""]
    else
      var rest := SplitOn(s[1..], sep);
      if s[0] == sep then [""] + rest else [[s[0]] + rest[0]] + rest[1..]
  }

  /** Python's `sep.join(parts)`. */
  function Join(parts: seq<string>, sep: string): string
  {
    if parts == [] then ""
    else if |parts| == 1 then parts[0]
    else parts[0] + sep + Join(parts[1..], sep)
  }

  /** No piece of a split holds the separator. */
  lemma {:induction false} SplitOnPiecesFree(s: string, sep: char)
    ensures forall k, j :: 0 <= k < |SplitOn(s, sep)| && 0 <= j < |SplitOn(s, sep)[k]| ==> SplitOn(s, sep)[k][j] != sep
  {
    if s != [] {
      SplitOnPiecesFree(s[1..], sep);
      var rest := SplitOn(s[1..], sep);
      if s[0] != sep {
        var r := SplitOn(s, sep);
        assert r == [[s[0]] + rest[0]] + rest[1..];
        forall k, j | 0 <= k < |r| && 0 <= j < |r[k]| ensures r[k][j] != sep {
          if k == 0 {
            if j > 0 { assert r[0][j] == rest[0][j - 1]; }
          } else {
            assert r[k] == rest[k];
          }
        }
      }
    }
  }

  /** Every character of every piece of a split is a character of the string. */
  lemma {:induction false} SplitOnPiecesKeep(s: string, sep: char, P: char -> bool)
    requires forall i :: 0 <= i < |s| ==> P(s[i])
    ensures forall k, j :: 0 <= k < |SplitOn(s, sep)| && 0 <= j < |SplitOn(s, sep)[k]| ==> P(SplitOn(s, sep)[k][j])
  {
    if s != [] {
      SplitOnPiecesKeep(s[1..], sep, P);
      var rest := SplitOn(s[1..], sep);
      if s[0] != sep {
        var r := SplitOn(s, sep);
        assert r == [[s[0]] + rest[0]] + rest[1..];
        forall k, j | 0 <= k < |r| && 0 <= j < |r[k]| ensures P(r[k][j]) {
          if k == 0 {
            if j > 0 { assert r[0][j] == rest[0][j - 1]; }
          } else {
            assert r[k] == rest[k];
          }
        }
      }
    }
  }

  /** Joining the pieces of a split gives back the string. */
  lemma {:induction false} JoinSplitOn(s: string, sep: char)
    ensures Join(SplitOn(s, sep), [sep]) == s
  {
    if s != [] {
      JoinSplitOn(s[1..], sep);
      var rest := SplitOn(s[1..], sep);
      if s[0] == sep {
        assert SplitOn(s, sep) == [""] + rest;
        assert ([""] + rest)[1..] == rest;
      } else {
        var r := SplitOn(s, sep);
        assert r == [[s[0]] + rest[0]] + rest[1..];
        if |rest| == 1 {
          assert s == [s[0]] + s[1..];
        } else {
          assert r[1..] == rest[1..];
          assert Join(rest, [sep]) == rest[0] + [sep] + Join(rest[1..], [sep]);
          assert s == [s[0]] + s[1..];
        }
      }
    }
  }

  /** Splitting a join of separator-free pieces gives back the pieces. */
  lemma {:induction false} SplitOnJoin(parts: seq<string>, sep: char)
    requires |parts| >= 1
    requires forall k, j :: 0 <= k < |parts| && 0 <= j < |parts[k]| ==> parts[k][j] != sep
    ensures SplitOn(Join(parts, [sep]), sep) == parts
  {
    if |parts| == 1 {
      SplitOnFree(parts[0], sep);
    } else {
      SplitOnJoin(parts[1..], sep);
      SplitOnPrefix(parts[0], Join(parts[1..], [sep]), sep);
      assert Join(parts, [sep]) == parts[0] + ([sep] + Join(parts[1..], [sep]));
      assert [parts[0]] + parts[1..] == parts;
    }
  }

  /** A string without the separator splits into itself. */
  lemma {:induction false} SplitOnFree(s: string, sep: char)
    requires forall j :: 0 <= j < |s| ==> s[j] != sep
    ensures SplitOn(s, sep) == [s]
  {
    if s != [] {
      SplitOnFree(s[1..], sep);
      assert [s[0]] + s[1..] == s;
    }
  }

  lemma {:induction false} SplitOnPrefix(p: string, t: string, sep: char)
    requires forall j :: 0 <= j < |p| ==> p[j] != sep
    ensures SplitOn(p + [sep] + t, sep) == [p] + SplitOn(t, sep)
  {
    if p == [] {
      assert p + [sep] + t == [sep] + t;
      assert ([sep] + t)[1..] == t;
    } else {
      SplitOnPrefix(p[1..], t, sep);
      assert (p + [sep] + t)[1..] == p[1..] + [sep] + t;
      assert [p[0]] + p[1..] == p;
    }
  }

  // ---------------------------------------------------------------------------
  // `re.findall` of a one-character-class `+` pattern: the maximal runs of the class

  /** Length of the leading run of characters in the class. */
  function RunLength(s: string, inClass: char -> bool): (n: nat)
    ensures n <= |s|
    ensures forall i :: 0 <= i < n ==> inClass(s[i])
    ensures n < |s| ==> !inClass(s[n])
  {
    if s == [] || !inClass(s[0]) then 0 else 1 + RunLength(s[1..], inClass)
  }

  /** The maximal runs of class characters, left to right (`re.findall(r"[...]+", s)`). */
  function Runs(s: string, inClass: char -> bool): seq<string>
    decreases |s|
  {
    if s == [] then []
    else if !inClass(s[0]) then Runs(s[1..], inClass)
    else
      var n := RunLength(s, inClass);
      [s[..n]] + Runs(s[n..], inClass)
  }

  /** Every run is non-empty and made of class characters. */
  lemma {:induction false} RunsWellFormed(s: string, inClass: char -> bool)
    ensures forall k :: 0 <= k < |Runs(s, inClass)| ==> |Runs(s, inClass)[k]| > 0
    ensures forall k, j :: 0 <= k < |Runs(s, inClass)| && 0 <= j < |Runs(s, inClass)[k]| ==> inClass(Runs(s, inClass)[k][j])
    decreases |s|
  {
    if s != [] {
      if !inClass(s[0]) {
        RunsWellFormed(s[1..], inClass);
      } else {
        var n := RunLength(s, inClass);
        RunsWellFormed(s[n..], inClass);
        var r := Runs(s, inClass);
        assert r == [s[..n]] + Runs(s[n..], inClass);
        forall k | 0 <= k < |r| ensures |r[k]| > 0 && forall j :: 0 <= j < |r[k]| ==> inClass(r[k][j]) {
          if k > 0 { assert r[k] == Runs(s[n..], inClass)[k - 1]; }
        }
      }
    }
  }

  /** Every character of every run is a character of the string. */
  lemma {:induction false} RunsKeep(s: string, inClass: char -> bool, P: char -> bool)
    requires forall i :: 0 <= i < |s| ==> P(s[i])
    ensures forall k, j :: 0 <= k < |Runs(s, inClass)| && 0 <= j < |Runs(s, inClass)[k]| ==> P(Runs(s, inClass)[k][j])
    decreases |s|
  {
    if s != [] {
      if !inClass(s[0]) {
        RunsKeep(s[1..], inClass, P);
      } else {
        var n := RunLength(s, inClass);
        RunsKeep(s[n..], inClass, P);
        var r := Runs(s, inClass);
        assert r == [s[..n]] + Runs(s[n..], inClass);
        forall k, j | 0 <= k < |r| && 0 <= j < |r[k]| ensures P(r[k][j]) {
          if k > 0 { assert r[k] == Runs(s[n..], inClass)[k - 1]; }
        }
      }
    }
  }

  /** The characters of `s` that lie in the class, in order. */
  function ClassChars(s: string, inClass: char -> bool): string
  {
    if s == [] then [] else (if inClass(s[0]) then [s[0]] else []) + ClassChars(s[1..], inClass)
  }

  function Concat(ss: seq<string>): string
  {
    if ss == [] then [] else ss[0] + Concat(ss[1..])
  }

  lemma {:induction false} ClassCharsAppend(a: string, b: string, inClass: char -> bool)
    ensures ClassChars(a + b, inClass) == ClassChars(a, inClass) + ClassChars(b, inClass)
  {
    if a == [] {
      assert a + b == b;
    } else {
      var ab := a + b;
      assert ab[0] == a[0];
      assert ab[1..] == a[1..] + b;
      ClassCharsAppend(a[1..], b, inClass);
      var h: string := if inClass(a[0]) then [a[0]] else [];
      calc {
        ClassChars(ab, inClass);
        h + ClassChars(a[1..] + b, inClass);
        h + (ClassChars(a[1..], inClass) + ClassChars(b, inClass));
        (h + ClassChars(a[1..], inClass)) + ClassChars(b, inClass);
      }
    }
  }

  lemma {:induction false} ClassCharsOfRun(s: string, inClass: char -> bool)
    requires forall i :: 0 <= i < |s| ==> inClass(s[i])
    ensures ClassChars(s, inClass) == s
  {
    if s != [] {
      ClassCharsOfRun(s[1..], inClass);
      assert [s[0]] + s[1..] == s;
    }
  }

  /** No class character is lost or invented: the runs, glued together, are exactly the class characters of `s`. */
  lemma {:induction false} RunsCoverClass(s: string, inClass: char -> bool)
    ensures Concat(Runs(s, inClass)) == ClassChars(s, inClass)
    decreases |s|
  {
    if s != [] {
      if !inClass(s[0]) {
        RunsCoverClass(s[1..], inClass);
      } else {
        var n := RunLength(s, inClass);
        RunsCoverClass(s[n..], inClass);
        assert s == s[..n] + s[n..];
        ClassCharsAppend(s[..n], s[n..], inClass);
        ClassCharsOfRun(s[..n], inClass);
        var r := Runs(s, inClass);
        assert r == [s[..n]] + Runs(s[n..], inClass);
        assert r[1..] == Runs(s[n..], inClass);
      }
    }
  }

  /** A non-empty string made only of class characters is a single run. */
  lemma {:induction false} RunsOfRun(s: string, inClass: char -> bool)
    requires forall i :: 0 <= i < |s| ==> inClass(s[i])
    ensures Runs(s, inClass) == if s == [] then [] else [s]
  {
    if s != [] {
      RunLengthAll(s, inClass);
      assert s[..|s|] == s;
      assert s[|s|..] == [];
    }
  }

  lemma {:induction false} RunLengthAll(s: string, inClass: char -> bool)
    requires forall i :: 0 <= i < |s| ==> inClass(s[i])
    ensures RunLength(s, inClass) == |s|
  {
    if s != [] { RunLengthAll(s[1..], inClass); }
  }

  // ---------------------------------------------------------------------------
  // Lexicographic order of Python's string comparison (by code point)

  predicate StrLe(a: string, b: string)
    decreases |a|
  {
    if a == [] then true
    else if b == [] then false
    else if a[0] != b[0] then a[0] < b[0]
    else StrLe(a[1..], b[1..])
  }

  lemma {:induction false} StrLeTotal(a: string, b: string)
    ensures StrLe(a, b) || StrLe(b, a)
    decreases |a|
  {
    if a != [] && b != [] && a[0] == b[0] { StrLeTotal(a[1..], b[1..]); }
  }

  lemma {:induction false} StrLeTransitive(a: string, b: string, c: string)
    requires StrLe(a, b) && StrLe(b, c)
    ensures StrLe(a, c)
    decreases |a|
  {
    if a != [] && b != [] && c != [] && a[0] == b[0] && b[0] == c[0] {
      StrLeTransitive(a[1..], b[1..], c[1..]);
    }
  }

  // ---------------------------------------------------------------------------
  // Decimal rendering of integers (`str(n)`, f-strings)

  function DigitChar(d: nat): char
    requires d < 10
  {
    ['0', '1', '2', '3', '4', '5', '6', '7', '8', '9'][d]
  }

  function NatToString(n: nat): (r: string)
    ensures |r| >= 1
    decreases n
  {
    if n < 10 then [DigitChar(n)] else NatToString(n / 10) + [DigitChar(n % 10)]
  }

  function IntToString(n: int): string
  {
    if n < 0 then "-" + NatToString(-n) else NatToString(n)
  }
}
