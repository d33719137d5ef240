/**
 * The Foundation string operations the core relies on: the two character sets
 * `CharacterSet.whitespaces` and `CharacterSet.whitespacesAndNewlines`,
 * `components(separatedBy:)` and `joined(separator:)`.
 */
module Text {

  /** `CharacterSet.whitespaces`: Unicode general category Zs, and the tab. */
  const Whitespaces: set<char> :=
    {' ', '\t', '\U{00A0}', '\U{1680}', '\U{2000}', '\U{2001}', '\U{2002}', '\U{2003}',
     '\U{2004}', '\U{2005}', '\U{2006}', '\U{2007}', '\U{2008}', '\U{2009}', '\U{200A}',
     '\U{202F}', '\U{205F}', '\U{3000}'}

  /** `CharacterSet.whitespacesAndNewlines`: the above plus U+000A to U+000D, U+0085, U+2028 and U+2029. */
  const WhitespacesAndNewlines: set<char> :=
    Whitespaces + {'\n', '\U{000B}', '\U{000C}', '\r', '\U{0085}', '\U{2028}', '\U{2029}'}

  /** No character of `s` is in `seps`. */
  predicate NoneIn(s: string, seps: set<char>)
  {
    forall i :: 0 <= i < |s| ==> s[i] !in seps
  }

  /** Every character of `s` is in `set` (so trimming `set` from `s` leaves the empty string). */
  predicate AllIn(s: string, chars: set<char>)
  {
    forall i :: 0 <= i < |s| ==> s[i] in chars
  }

  /** Number of occurrences of `c` in `s`. */
  function Occurrences(s: string, c: char): nat
  {
    if s == [] then 0 else (if s[0] == c then 1 else 0) + Occurrences(s[1..], c)
  }

  /**
   * `components(separatedBy:)`: the maximal runs of `s` between separator characters,
   * empty runs included, so there is always one more part than there are separators.
   */
  function Components(s: string, seps: set<char>): (parts: seq<string>)
    ensures |parts| >= 1
    ensures forall k :: 0 <= k < |parts| ==> NoneIn(parts[k], seps)
    decreases |s|
  {
    if s == [] then [""]
    else
      var rest := Components(s[1..], seps);
      if s[0] in seps then [""] + rest
      else [[s[0]] + rest[0]] + rest[1..]
  }

  /** `joined(separator:)`. */
  function Join(parts: seq<string>, sep: string): string
  {
    if |parts| == 0 then ""
    else if |parts| == 1 then parts[0]
    else parts[0] + sep + Join(parts[1..], sep)
  }

  lemma {:induction false} ComponentsCount(s: string, c: char)
    ensures |Components(s, {c})| == Occurrences(s, c) + 1
    decreases |s|
  {
    if s != [] {
      ComponentsCount(s[1..], c);
    }
  }

  /** A string with no separator is a single component. */
  lemma {:induction false} ComponentsOfPlain(s: string, seps: set<char>)
    requires NoneIn(s, seps)
    ensures Components(s, seps) == [s]
    decreases |s|
  {
    if s != [] {
      ComponentsOfPlain(s[1..], seps);
      assert s[0] !in seps;
      assert [s[0]] + s[1..] == s;
    }
  }

  /** A run without separators, then a separator: the run is the first component. */
  lemma {:induction false} ComponentsOfRun(p: string, c: char, q: string, seps: set<char>)
    requires NoneIn(p, seps) && c in seps
    ensures Components(p + [c] + q, seps) == [p] + Components(q, seps)
    decreases |p|
  {
    if p == [] {
      assert p + [c] + q == [c] + q;
      assert ([c] + q)[1..] == q;
    } else {
      ComponentsOfRun(p[1..], c, q, seps);
      assert (p + [c] + q)[1..] == p[1..] + [c] + q;
      assert [p[0]] + p[1..] == p;
    }
  }

  /** Splitting a join on a separator that occurs in no part gives the parts back. */
  lemma {:induction false} ComponentsOfJoin(parts: seq<string>, c: char, seps: set<char>)
    requires |parts| >= 1 && c in seps
    requires forall k :: 0 <= k < |parts| ==> NoneIn(parts[k], seps)
    ensures Components(Join(parts, [c]), seps) == parts
    decreases |parts|
  {
    if |parts| == 1 {
      ComponentsOfPlain(parts[0], seps);
    } else {
      ComponentsOfJoin(parts[1..], c, seps);
      ComponentsOfRun(parts[0], c, Join(parts[1..], [c]), seps);
      assert [parts[0]] + parts[1..] == parts;
    }
  }

  /** Joining the components on the one separator character gives the string back. */
  lemma {:induction false} JoinOfComponents(s: string, c: char)
    ensures Join(Components(s, {c}), [c]) == s
    decreases |s|
  {
    if s != [] {
      JoinOfComponents(s[1..], c);
      var rest := Components(s[1..], {c});
      if s[0] != c {
        if |rest| > 1 {
          assert Join(rest, [c]) == rest[0] + [c] + Join(rest[1..], [c]);
          assert [[s[0]] + rest[0]] + rest[1..] == [[s[0]] + rest[0], rest[1]] + rest[2..];
        }
      }
    }
  }

  /** `trimmingCharacters(in:)`: drop the leading and the trailing characters that are in `chars`. */
  function Trim(s: string, chars: set<char>): string
  {
    TrimEnd(TrimStart(s, chars), chars)
  }

  function TrimStart(s: string, chars: set<char>): (t: string)
    ensures |t| <= |s|
  {
    if s != [] && s[0] in chars then TrimStart(s[1..], chars) else s
  }

  function TrimEnd(s: string, chars: set<char>): (t: string)
    ensures |t| <= |s|
  {
    if s != [] && s[|s| - 1] in chars then TrimEnd(s[..|s| - 1], chars) else s
  }

  /** Trimming leaves nothing exactly when every character is one of those trimmed. */
  lemma {:induction false} TrimEmptyIffAllIn(s: string, chars: set<char>)
    ensures |Trim(s, chars)| == 0 <==> AllIn(s, chars)
    decreases |s|
  {
    TrimStartEmptyIffAllIn(s, chars);
    var t := TrimStart(s, chars);
    if t != [] {
      TrimStartKeepsHead(s, chars);
      TrimEndKeepsHead(t, chars);
    }
  }

  lemma {:induction false} TrimStartEmptyIffAllIn(s: string, chars: set<char>)
    ensures TrimStart(s, chars) == [] <==> AllIn(s, chars)
    decreases |s|
  {
    if s != [] {
      TrimStartEmptyIffAllIn(s[1..], chars);
      if s[0] in chars {
        assert AllIn(s[1..], chars) ==> AllIn(s, chars) by {
          if AllIn(s[1..], chars) {
            forall i | 0 <= i < |s| ensures s[i] in chars {
              if i > 0 { assert s[i] == s[1..][i - 1]; }
            }
          }
        }
      }
    }
  }

  /** What is left after trimming the front starts with a character that is not trimmed. */
  lemma {:induction false} TrimStartKeepsHead(s: string, chars: set<char>)
    requires TrimStart(s, chars) != []
    ensures TrimStart(s, chars)[0] !in chars
    decreases |s|
  {
    if s != [] && s[0] in chars {
      TrimStartKeepsHead(s[1..], chars);
    }
  }

  /** Trimming the back of a string whose first character is kept leaves a non-empty string. */
  lemma {:induction false} TrimEndKeepsHead(s: string, chars: set<char>)
    requires s != [] && s[0] !in chars
    ensures TrimEnd(s, chars) != []
    decreases |s|
  {
    if s[|s| - 1] in chars {
      assert |s| > 1;
      TrimEndKeepsHead(s[..|s| - 1], chars);
    }
  }
}
