/** The parts of Go's `strings` package the deployer relies on. */
module Strings {

  predicate HasPrefix(s: string, prefix: string) {
    |prefix| <= |s| && s[..|prefix|] == prefix
  }

  predicate HasSuffix(s: string, suffix: string) {
    |suffix| <= |s| && s[|s| - |suffix|..] == suffix
  }

  /** `strings.Contains` */
  predicate Contains(s: string, sub: string) {
    exists i: nat :: i <= |s| - |sub| && StartsAt(s, i, sub)
  }

  /** `lit` occurs in `s` starting at index `i`. */
  predicate StartsAt(s: string, i: nat, lit: string) {
    i + |lit| <= |s| && s[i..i + |lit|] == lit
  }

  /** `strings.TrimSuffix(dir, "/")`: at most one trailing slash is removed. */
  function TrimTrailingSlash(dir: string): (r: string)
    ensures HasSuffix(dir, "/") ==> r + "/" == dir
    ensures !HasSuffix(dir, "/") ==> r == dir
  {
    if HasSuffix(dir, "/") then dir[..|dir| - 1] else dir
  }

  /** A directory written with and without its trailing slash names the same place. */
  lemma TrimTrailingSlashIgnoresOneSlash(dir: string)
    requires !HasSuffix(dir, "/")
    ensures TrimTrailingSlash(dir + "/") == TrimTrailingSlash(dir) == dir
  {
    assert (dir + "/")[..|dir|] == dir;
  }

  /** `strings.Split(s, string(sep))`: the pieces between the separators, so always at least one. */
  function Split(s: string, sep: char): (parts: seq<string>)
    ensures |parts| >= 1
    decreases |s|
  {
    if s == [] then [""]
    else
      var rest := Split(s[1..], sep);
      if s[0] == sep then [""] + rest
      else [[s[0]] + rest[0]] + rest[1..]
  }

  /** `strings.Join(parts, string(sep))` */
  function Join(parts: seq<string>, sep: char): string
    decreases |parts|
  {
    if |parts| == 0 then ""
    else if |parts| == 1 then parts[0]
    else parts[0] + [sep] + Join(parts[1..], sep)
  }

  /** Joining the pieces back with the separator gives the original string. */
  lemma {:induction false} SplitJoin(s: string, sep: char)
    ensures Join(Split(s, sep), sep) == s
    decreases |s|
  {
    if s != [] {
      var rest := Split(s[1..], sep);
      SplitJoin(s[1..], sep);
      if s[0] == sep {
        assert Split(s, sep) == [""] + rest;
        assert ([""] + rest)[1..] == rest;
      } else {
        var parts := Split(s, sep);
        assert parts == [[s[0]] + rest[0]] + rest[1..];
        if |rest| == 1 {
          assert Join(parts, sep) == [s[0]] + rest[0];
        } else {
          assert parts[1..] == rest[1..];
          assert Join(rest, sep) == rest[0] + [sep] + Join(rest[1..], sep);
        }
        assert s == [s[0]] + s[1..];
      }
    }
  }

  /** No piece contains the separator. */
  lemma {:induction false} SplitPiecesHaveNoSeparator(s: string, sep: char)
    ensures forall p :: p in Split(s, sep) ==> sep !in p
    decreases |s|
  {
    if s != [] {
      SplitPiecesHaveNoSeparator(s[1..], sep);
      var rest := Split(s[1..], sep);
      if s[0] != sep {
        assert sep !in rest[0];
        assert sep !in [s[0]] + rest[0];
        forall p | p in Split(s, sep) ensures sep !in p {
          if p != [s[0]] + rest[0] {
            assert p in rest[1..];
          }
        }
      }
    }
  }

  /** A string without the separator splits into itself alone. */
  lemma {:induction false} SplitWithoutSeparator(s: string, sep: char)
    requires sep !in s
    ensures Split(s, sep) == [s]
    decreases |s|
  {
    if s != [] {
      SplitWithoutSeparator(s[1..], sep);
      assert s == [s[0]] + s[1..];
    }
  }

  /** Peeling off the last piece of a join. */
  lemma {:induction false} JoinLast(parts: seq<string>, sep: char)
    requires |parts| >= 2
    ensures Join(parts, sep) == Join(parts[..|parts| - 1], sep) + [sep] + parts[|parts| - 1]
    decreases |parts|
  {
    if |parts| > 2 {
      JoinLast(parts[1..], sep);
      assert parts[1..][..|parts| - 2] == parts[..|parts| - 1][1..];
    }
  }

  /** The last piece of a split: what follows the last separator, or the whole string. */
  lemma LastPiece(s: string, sep: char)
    ensures var parts := Split(s, sep);
            var last := parts[|parts| - 1];
            sep !in last && HasSuffix(s, last) &&
            (last == s || s[|s| - |last| - 1] == sep)
  {
    var parts := Split(s, sep);
    var last := parts[|parts| - 1];
    SplitJoin(s, sep);
    SplitPiecesHaveNoSeparator(s, sep);
    assert last in parts;
    if |parts| >= 2 {
      JoinLast(parts, sep);
      var front := Join(parts[..|parts| - 1], sep);
      assert s == front + [sep] + last;
      assert s[|s| - |last|..] == last;
      assert s[|s| - |last| - 1] == sep;
    } else {
      assert s == last;
    }
  }

  /** The lines of `s` that end in a newline, without it; text after the last newline is not a line. */
  function TerminatedLines(s: string): (lines: seq<string>)
    ensures forall l :: l in lines ==> '\n' !in l
  {
    SplitPiecesHaveNoSeparator(s, '\n');
    var parts := Split(s, '\n');
    assert forall l :: l in parts[..|parts| - 1] ==> l in parts;
    parts[..|parts| - 1]
  }

  /** Each line followed by a newline, the inverse of `TerminatedLines`. */
  function UnlinesTerminated(lines: seq<string>): string
    decreases |lines|
  {
    if lines == [] then "" else lines[0] + "\n" + UnlinesTerminated(lines[1..])
  }

  /** Text made of newline-terminated lines splits back into exactly those lines. */
  lemma {:induction false} TerminatedLinesRoundTrip(lines: seq<string>)
    requires forall l :: l in lines ==> '\n' !in l
    ensures TerminatedLines(UnlinesTerminated(lines)) == lines
    decreases |lines|
  {
    if lines == [] {
    } else {
      var rest := UnlinesTerminated(lines[1..]);
      TerminatedLinesRoundTrip(lines[1..]);
      SplitAfterPiece(lines[0], rest, '\n');
      var partsRest := Split(rest, '\n');
      assert Split(UnlinesTerminated(lines), '\n') == [lines[0]] + partsRest;
      assert ([lines[0]] + partsRest)[..|partsRest|] == [lines[0]] + partsRest[..|partsRest| - 1];
    }
  }

  /** Splitting `piece + [sep] + rest` where `piece` has no separator. */
  lemma {:induction false} SplitAfterPiece(piece: string, rest: string, sep: char)
    requires sep !in piece
    ensures Split(piece + [sep] + rest, sep) == [piece] + Split(rest, sep)
    decreases |piece|
  {
    if piece == [] {
      assert [] + [sep] + rest == [sep] + rest;
      assert ([sep] + rest)[1..] == rest;
    } else {
      var s := piece + [sep] + rest;
      assert s[1..] == piece[1..] + [sep] + rest;
      SplitAfterPiece(piece[1..], rest, sep);
      assert [piece[0]] + piece[1..] == piece;
    }
  }
}
