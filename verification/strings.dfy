/**
 The few Python `str` operations the servers rely on: `startswith`,
 `endswith`, `sep.join(parts)` and `s.split(sep)` for a one-character
 separator.
 */
module Strings {

  predicate StartsWith(s: string, prefix: string)
  {
    |prefix| <= |s| && s[..|prefix|] == prefix
  }

  predicate EndsWith(s: string, suffix: string)
  {
    |suffix| <= |s| && s[|s| - |suffix|..] == suffix
  }

  /** Python `sep.join(parts)`: the parts with `sep` between neighbours. */
  function Join(parts: seq<string>, sep: string): (s: string)
    decreases |parts|
  {
    if |parts| == 0 then ""
    else if |parts| == 1 then parts[0]
    else parts[0] + sep + Join(parts[1..], sep)
  }

  /** Join written out for four and for five parts. */
  lemma JoinFour(a: string, b: string, c: string, d: string, sep: string)
    ensures Join([a, b, c, d], sep) == a + sep + b + sep + c + sep + d
  {
    assert [a, b, c, d][1..] == [b, c, d] && [b, c, d][1..] == [c, d] && [c, d][1..] == [d];
    assert Join([c, d], sep) == c + sep + d;
    assert Join([b, c, d], sep) == b + sep + (c + sep + d);
    assert Join([a, b, c, d], sep) == a + sep + (b + sep + (c + sep + d));
  }

  lemma JoinFive(a: string, b: string, c: string, d: string, e: string, sep: string)
    ensures Join([a, b, c, d, e], sep) == a + sep + b + sep + c + sep + d + sep + e
  {
    assert [a, b, c, d, e][1..] == [b, c, d, e];
    JoinFour(b, c, d, e, sep);
  }

  /**
   Python `s.split(sep)` for a one-character separator: the stretches of `s`
   between separators, in order. There is always at least one piece
   (`"".split("/") == [""]`); SplitPieces states what the pieces are.
   */
  function Split(s: string, sep: char): (pieces: seq<string>)
    ensures |pieces| >= 1
    decreases |s|
  {
    if s == [] then [""]
    else
      var rest := Split(s[1..], sep);
      if s[0] == sep then [""] + rest
      else [[s[0]] + rest[0]] + rest[1..]
  }

  /**
   The pieces are exactly the maximal separator-free stretches of `s`:
   joining them back with `sep` gives `s`, and none of them contains `sep`.
   */
  lemma {:induction false} SplitPieces(s: string, sep: char)
    ensures Join(Split(s, sep), [sep]) == s
    ensures forall i :: 0 <= i < |Split(s, sep)| ==> sep !in Split(s, sep)[i]
    decreases |s|
  {
    if s != [] {
      SplitPieces(s[1..], sep);
      var rest := Split(s[1..], sep);
      var pieces := Split(s, sep);
      assert s == [s[0]] + s[1..];
      if s[0] == sep {
        assert pieces == [""] + rest;
        assert pieces[1..] == rest;
      } else {
        assert pieces == [[s[0]] + rest[0]] + rest[1..];
        assert pieces[1..] == rest[1..];
        if |rest| > 1 {
          assert Join(rest, [sep]) == rest[0] + [sep] + Join(rest[1..], [sep]);
        }
        forall i | 0 <= i < |pieces|
          ensures sep !in pieces[i]
        {
          if i > 0 {
            assert pieces[i] == rest[i];
          }
        }
      }
    }
  }

  /** Joining a longer list ends with the separator and the last part. */
  lemma {:induction false} JoinLast(parts: seq<string>, sep: string)
    requires |parts| >= 2
    ensures Join(parts, sep) == Join(parts[..|parts| - 1], sep) + sep + parts[|parts| - 1]
    decreases |parts|
  {
    if |parts| == 2 {
      assert parts[..1] == [parts[0]];
    } else {
      var tail := parts[1..];
      JoinLast(tail, sep);
      assert tail[..|tail| - 1] == parts[..|parts| - 1][1..];
      assert tail[|tail| - 1] == parts[|parts| - 1];
    }
  }

  /** A separator-free string is a single piece. */
  lemma {:induction false} SplitNoSeparator(w: string, sep: char)
    requires sep !in w
    ensures Split(w, sep) == [w]
    decreases |w|
  {
    if w != [] {
      SplitNoSeparator(w[1..], sep);
      assert w == [w[0]] + w[1..];
    }
  }

  /** One step of Split, stated on a string given as its first character and the rest. */
  lemma SplitCons(c: char, t: string, sep: char)
    ensures Split([c] + t, sep) == ConsPiece(c, sep, Split(t, sep))
  {
    assert ([c] + t)[1..] == t;
  }

  /** Split's step for a leading character in front of the pieces of the rest. */
  function ConsPiece(c: char, sep: char, pieces: seq<string>): (extended: seq<string>)
    requires |pieces| >= 1
  {
    if c == sep then [""] + pieces else [[c] + pieces[0]] + pieces[1..]
  }

  /** The step only touches the first piece, so pieces appended after are carried along. */
  lemma ConsPieceAppend(c: char, sep: char, left: seq<string>, right: seq<string>)
    requires |left| >= 1
    ensures ConsPiece(c, sep, left + right) == ConsPiece(c, sep, left) + right
  {
    if c != sep {
      assert (left + right)[0] == left[0];
      assert (left + right)[1..] == left[1..] + right;
    }
  }

  /** Splitting at a separator splits each side independently. */
  lemma {:induction false} SplitAtSeparator(a: string, b: string, sep: char)
    ensures Split(a + [sep] + b, sep) == Split(a, sep) + Split(b, sep)
    decreases |a|
  {
    if a == [] {
      assert a + [sep] + b == [sep] + b;
      SplitCons(sep, b, sep);
    } else {
      var t := a[1..] + [sep] + b;
      assert a + [sep] + b == [a[0]] + t;
      assert a == [a[0]] + a[1..];
      SplitAtSeparator(a[1..], b, sep);
      SplitCons(a[0], t, sep);
      SplitCons(a[0], a[1..], sep);
      ConsPieceAppend(a[0], sep, Split(a[1..], sep), Split(b, sep));
    }
  }

  /** A string holding the separator splits into at least two pieces. */
  lemma {:induction false} SplitAtLeastTwo(s: string, sep: char)
    requires sep in s
    ensures |Split(s, sep)| >= 2
    decreases |s|
  {
    assert s == [s[0]] + s[1..];
    SplitCons(s[0], s[1..], sep);
    if s[0] != sep {
      SplitAtLeastTwo(s[1..], sep);
    }
  }

  /** The last piece of a string holding the separator is separator-free and follows the last separator. */
  lemma SplitLastPiece(s: string, sep: char)
    requires sep in s
    ensures |Split(s, sep)| >= 2
    ensures var pieces := Split(s, sep);
            sep !in pieces[|pieces| - 1] && EndsWith(s, [sep] + pieces[|pieces| - 1])
  {
    SplitAtLeastTwo(s, sep);
    SplitPieces(s, sep);
    var pieces := Split(s, sep);
    JoinLast(pieces, [sep]);
    EndsWithJoined(Join(pieces[..|pieces| - 1], [sep]), [sep], pieces[|pieces| - 1]);
  }

  lemma EndsWithJoined(a: string, b: string, c: string)
    ensures EndsWith(a + b + c, b + c)
  {
    assert (a + b + c)[|a|..] == b + c;
  }

  /** A suffix stays a suffix when the same text is appended to both. */
  lemma EndsWithAppend(s: string, suffix: string, t: string)
    requires EndsWith(s, suffix)
    ensures EndsWith(s + t, suffix + t)
  {
    assert (s + t)[|s + t| - |suffix + t|..] == s[|s| - |suffix|..] + t;
  }

  /**
   Splitting `body + sep + last`, with `body` holding the separator and
   `last` free of it: at least three pieces, `last` the final one, and the
   one before it separator-free and sitting right before `sep + last`.
   */
  lemma SplitBeforeLast(body: string, last: string, sep: char)
    requires sep in body && sep !in last
    ensures var pieces := Split(body + [sep] + last, sep);
            && |pieces| >= 3
            && pieces[|pieces| - 1] == last
            && sep !in pieces[|pieces| - 2]
            && EndsWith(body + [sep] + last, [sep] + pieces[|pieces| - 2] + ([sep] + last))
  {
    SplitAtSeparator(body, last, sep);
    SplitNoSeparator(last, sep);
    SplitLastPiece(body, sep);
    var front := Split(body, sep);
    var pieces := Split(body + [sep] + last, sep);
    assert pieces == front + [last];
    assert pieces[|pieces| - 2] == front[|front| - 1];
    EndsWithAppend(body, [sep] + front[|front| - 1], [sep] + last);
    assert body + [sep] + last == body + ([sep] + last);
  }
}
