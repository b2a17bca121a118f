/**
 * The JavaScript string operations the core relies on: `split` on a
 * one-character separator, `join`, and `toLowerCase`/`toUpperCase`
 * (on ASCII letters).
 */
module Text {

  /**
   * `s.split(sep)`: the pieces of `s` between occurrences of `sep`, in order.
   * There is always at least one piece; the first piece is the text before the
   * first `sep` (all of `s` when there is none).
   */
  function Split(s: string, sep: char): (pieces: seq<string>)
    ensures |pieces| >= 1
    ensures forall i :: 0 <= i < |pieces| ==> sep !in pieces[i]
    ensures |pieces[0]| <= |s| && pieces[0] == s[..|pieces[0]|]
    ensures |pieces[0]| < |s| ==> s[|pieces[0]|] == sep
    decreases |s|
  {
    if s == [] then [""]
    else
      var rest := Split(s[1..], sep);
      if s[0] == sep then [""] + rest
      else
        assert [s[0]] + rest[0] == s[..1 + |rest[0]|];
        [[s[0]] + rest[0]] + rest[1..]
  }

  /** `parts.join(sep)`: the parts with `sep` between neighbours; `""` for no parts. */
  function Join(parts: seq<string>, sep: string): string
  {
    if |parts| == 0 then ""
    else if |parts| == 1 then parts[0]
    else parts[0] + sep + Join(parts[1..], sep)
  }

  /** Lower-casing of one character (ASCII letters only). */
  function LowerChar(c: char): char
  {
    if 'A' <= c <= 'Z' then (c as int + 32) as char else c
  }

  /** Upper-casing of one character (ASCII letters only). */
  function UpperChar(c: char): char
  {
    if 'a' <= c <= 'z' then (c as int - 32) as char else c
  }

  /** `s.toLowerCase()` on ASCII letters. */
  function ToLower(s: string): string
  {
    seq(|s|, i requires 0 <= i < |s| => LowerChar(s[i]))
  }

  /** `s.toUpperCase()` on ASCII letters. */
  function ToUpper(s: string): string
  {
    seq(|s|, i requires 0 <= i < |s| => UpperChar(s[i]))
  }

  /** Splitting a string and joining the pieces with the same separator gives it back. */
  lemma {:induction false} JoinSplit(s: string, sep: char)
    ensures Join(Split(s, sep), [sep]) == s
    decreases |s|
  {
    if s != [] {
      var rest := Split(s[1..], sep);
      JoinSplit(s[1..], sep);
      if s[0] == sep {
        assert Split(s, sep) == [""] + rest;
        assert ([""] + rest)[1..] == rest;
      } else {
        var pieces := [[s[0]] + rest[0]] + rest[1..];
        assert Split(s, sep) == pieces;
        if |rest| == 1 {
          assert pieces == [[s[0]] + rest[0]];
        } else {
          assert pieces[1..] == rest[1..];
          assert Join(rest, [sep]) == rest[0] + [sep] + Join(rest[1..], [sep]);
        }
        assert s == [s[0]] + s[1..];
      }
    }
  }

  /** A string without the separator is a single piece. */
  lemma {:induction false} SplitWithoutSep(t: string, sep: char)
    requires sep !in t
    ensures Split(t, sep) == [t]
    decreases |t|
  {
    if t != [] {
      SplitWithoutSep(t[1..], sep);
      assert t == [t[0]] + t[1..];
    }
  }

  /** A separator-free piece followed by the separator is split off as the first piece. */
  lemma {:induction false} SplitAfterPiece(t: string, sep: char, rest: string)
    requires sep !in t
    ensures Split(t + [sep] + rest, sep) == [t] + Split(rest, sep)
    decreases |t|
  {
    var s := t + [sep] + rest;
    if t == [] {
      assert s == [sep] + rest;
      assert s[1..] == rest;
    } else {
      assert s[1..] == t[1..] + [sep] + rest;
      SplitAfterPiece(t[1..], sep, rest);
      assert [t[0]] + t[1..] == t;
    }
  }

  /**
   * Joining separator-free parts and splitting the result gives the parts back
   * (a non-empty list is needed: `[]` and `[""]` both join to `""`).
   */
  lemma {:induction false} SplitJoin(parts: seq<string>, sep: char)
    requires |parts| >= 1
    requires forall i :: 0 <= i < |parts| ==> sep !in parts[i]
    ensures Split(Join(parts, [sep]), sep) == parts
    decreases |parts|
  {
    if |parts| == 1 {
      SplitWithoutSep(parts[0], sep);
    } else {
      SplitJoin(parts[1..], sep);
      SplitAfterPiece(parts[0], sep, Join(parts[1..], [sep]));
      assert [parts[0]] + parts[1..] == parts;
    }
  }

  /** `split` yields one more piece than there are separators in the string. */
  lemma {:induction false} SplitCount(s: string, sep: char)
    ensures |Split(s, sep)| == multiset(s)[sep] + 1
    decreases |s|
  {
    if s != [] {
      SplitCount(s[1..], sep);
      assert s == [s[0]] + s[1..];
      assert multiset(s) == multiset{s[0]} + multiset(s[1..]);
    }
  }

  /** `s.toLowerCase() === "yes"` holds exactly for the eight spellings of "yes" in any letter case. */
  lemma LowerIsYes(s: string)
    ensures ToLower(s) == "yes" <==>
      |s| == 3 && (s[0] == 'y' || s[0] == 'Y') && (s[1] == 'e' || s[1] == 'E') && (s[2] == 's' || s[2] == 'S')
  {
    if |s| == 3 {
      assert ToLower(s) == [LowerChar(s[0]), LowerChar(s[1]), LowerChar(s[2])];
    }
  }
}
