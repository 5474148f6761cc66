/** The PHP string primitives the module naming code relies on:
    `explode`, `implode`, single-character `str_replace` and `dirname`. */
module Text {

  /** `explode(sep, s)`: the pieces of `s` between occurrences of `sep`.
      Like PHP, the empty string splits into one empty piece. */
  function Split(s: string, sep: char): (parts: seq<string>)
    ensures |parts| >= 1
    decreases |s|
  {
    if s == [] then [[]]
    else
      var init := Split(s[..|s| - 1], sep);
      var c := s[|s| - 1];
      if c == sep then init + [[]]
      else init[..|init| - 1] + [init[|init| - 1] + [c]]
  }

  /** `implode(sep, parts)`: the pieces glued together with `sep`. The result
      starts with the first piece. */
  function Join(parts: seq<string>, sep: char): (r: string)
    ensures |parts| >= 1 ==> parts[0] <= r
  {
    if |parts| == 0 then []
    else if |parts| == 1 then parts[0]
    else
      var init := parts[..|parts| - 1];
      assert init[0] == parts[0];
      Join(init, sep) + [sep] + parts[|parts| - 1]
  }

  /** No piece contains the character `c`. */
  predicate Free(parts: seq<string>, c: char)
  {
    forall i :: 0 <= i < |parts| ==> c !in parts[i]
  }

  /** Number of occurrences of `c` in `s`. */
  function Count(s: string, c: char): nat
  {
    multiset(s)[c]
  }

  /** No piece of a split contains the separator. */
  lemma {:induction false} SplitFree(s: string, sep: char)
    ensures Free(Split(s, sep), sep)
    decreases |s|
  {
    if s != [] {
      var pre, c := s[..|s| - 1], s[|s| - 1];
      var init := Split(pre, sep);
      SplitFree(pre, sep);
      var k := |init| - 1;
      var parts := Split(s, sep);
      if c != sep {
        assert parts == init[..k] + [init[k] + [c]];
        forall i | 0 <= i < |parts|
          ensures sep !in parts[i]
        {
          if i < k {
            assert parts[i] == init[i];
          }
        }
      }
    }
  }

  /** Gluing the pieces back together gives the original string, and no
      piece contains the separator. */
  lemma {:induction false} JoinSplit(s: string, sep: char)
    ensures Join(Split(s, sep), sep) == s
    ensures Free(Split(s, sep), sep)
    decreases |s|
  {
    SplitFree(s, sep);
    if s != [] {
      var pre, c := s[..|s| - 1], s[|s| - 1];
      assert s == pre + [c];
      var init := Split(pre, sep);
      JoinSplit(pre, sep);
      var k := |init| - 1;
      var parts := Split(s, sep);
      if c == sep {
        assert parts == init + [[]];
        assert parts[..|parts| - 1] == init;
        assert Join(parts, sep) == Join(init, sep) + [sep] + [];
      } else {
        assert parts == init[..k] + [init[k] + [c]];
        assert parts[..k] == init[..k];
        if k == 0 {
          assert Join(parts, sep) == init[0] + [c];
        } else {
          assert Join(init, sep) == Join(init[..k], sep) + [sep] + init[k];
          assert Join(parts, sep) == Join(init[..k], sep) + [sep] + (init[k] + [c]);
        }
      }
    }
  }

  /** A string without the separator splits into itself alone. */
  lemma {:induction false} SplitPlain(y: string, sep: char)
    requires sep !in y
    ensures Split(y, sep) == [y]
    decreases |y|
  {
    if y != [] {
      SplitPlain(y[..|y| - 1], sep);
      assert y == y[..|y| - 1] + [y[|y| - 1]];
    }
  }

  /** Appending a separator and a separator-free piece appends one part. */
  lemma {:induction false} SplitAfterSep(x: string, y: string, sep: char)
    requires sep !in y
    ensures Split(x + [sep] + y, sep) == Split(x, sep) + [y]
    decreases |y|
  {
    if y == [] {
      assert (x + [sep] + y)[..|x|] == x;
    } else {
      var y' := y[..|y| - 1];
      SplitAfterSep(x, y', sep);
      var s := x + [sep] + y;
      assert s[..|s| - 1] == x + [sep] + y';
      assert y == y' + [y[|y| - 1]];
    }
  }

  /** Splitting glued separator-free pieces gives back the pieces. */
  lemma {:induction false} SplitJoin(parts: seq<string>, sep: char)
    requires |parts| >= 1 && Free(parts, sep)
    ensures Split(Join(parts, sep), sep) == parts
    decreases |parts|
  {
    if |parts| == 1 {
      SplitPlain(parts[0], sep);
    } else {
      var init := parts[..|parts| - 1];
      assert Free(init, sep) by {
        forall i | 0 <= i < |init| ensures sep !in init[i] {
          assert init[i] == parts[i];
        }
      }
      SplitJoin(init, sep);
      assert sep !in parts[|parts| - 1];
      SplitAfterSep(Join(init, sep), parts[|parts| - 1], sep);
    }
  }

  /** Gluing n separator-free pieces puts exactly n - 1 separators in. */
  lemma {:induction false} JoinCount(parts: seq<string>, sep: char)
    requires |parts| >= 1 && Free(parts, sep)
    ensures Count(Join(parts, sep), sep) == |parts| - 1
    decreases |parts|
  {
    assert sep !in parts[|parts| - 1];
    if |parts| > 1 {
      var init := parts[..|parts| - 1];
      assert Free(init, sep) by {
        forall i | 0 <= i < |init| ensures sep !in init[i] {
          assert init[i] == parts[i];
        }
      }
      JoinCount(init, sep);
      assert multiset(Join(parts, sep)) == multiset(Join(init, sep)) + multiset([sep]) + multiset(parts[|parts| - 1]);
    }
  }

  /** Single-character `str_replace(from, to, s)`: same length, and no
      `from` is left when it is replaced by another character. */
  function Translate(s: string, from: char, to: char): (r: string)
    ensures |r| == |s|
    ensures from != to ==> from !in r
  {
    seq(|s|, i requires 0 <= i < |s| => if s[i] == from then to else s[i])
  }

  /** Every `from` becomes a `to` and nothing else changes: the `to`s of the
      result are those of the input plus its `from`s, and the other
      characters keep their counts. */
  lemma {:induction false} TranslateCount(s: string, from: char, to: char, c: char)
    requires from != to
    ensures Count(Translate(s, from, to), to) == Count(s, to) + Count(s, from)
    ensures c != from && c != to ==> Count(Translate(s, from, to), c) == Count(s, c)
    decreases |s|
  {
    if s != [] {
      var init, last := s[..|s| - 1], s[|s| - 1];
      assert s == init + [last];
      TranslateCount(init, from, to, c);
      TranslateAppend(init, [last], from, to);
      assert Translate([last], from, to) == [if last == from then to else last];
      assert multiset(Translate(s, from, to)) == multiset(Translate(init, from, to)) + multiset(Translate([last], from, to));
    }
  }

  /** Replacing distributes over concatenation. */
  lemma TranslateAppend(a: string, b: string, from: char, to: char)
    ensures Translate(a + b, from, to) == Translate(a, from, to) + Translate(b, from, to)
  {
    var l, r := Translate(a + b, from, to), Translate(a, from, to) + Translate(b, from, to);
    assert |l| == |r|;
    forall i | 0 <= i < |l| ensures l[i] == r[i] {
      if i < |a| { assert (a + b)[i] == a[i]; } else { assert (a + b)[i] == b[i - |a|]; }
    }
  }

  /** Replacing `from` by `to` and back is the identity when `to` did not occur. */
  lemma TranslateBack(s: string, from: char, to: char)
    requires to !in s
    ensures Translate(Translate(s, from, to), to, from) == s
  {
    var r := Translate(Translate(s, from, to), to, from);
    forall i | 0 <= i < |s| ensures r[i] == s[i] {
      assert s[i] != to;
    }
  }

  /** Removes the trailing run of characters that are (`onSep`) or are not
      (`!onSep`) the separator. */
  function DropTrailing(s: string, sep: char, onSep: bool): (r: string)
    ensures r <= s
    ensures r == [] || (r[|r| - 1] == sep) != onSep
    ensures forall i :: |r| <= i < |s| ==> (s[i] == sep) == onSep
    decreases |s|
  {
    if s != [] && (s[|s| - 1] == sep) == onSep then DropTrailing(s[..|s| - 1], sep, onSep) else s
  }

  /** `dirname` on one separator, step for step as PHP does it: strip trailing
      separators (only separators: the root); strip the last name (nothing left:
      "."); strip the separators before it (nothing left: the root). The empty
      path stays empty; any other path gives the root, ".", or a strictly
      shorter prefix of itself that does not end in a separator. */
  function Dirname(path: string, sep: char): (r: string)
    ensures r == [] <==> path == []
    ensures path != [] ==> r == [sep] || r == "." || (r < path && |r| < |path| && r[|r| - 1] != sep)
  {
    if path == [] then []
    else
      var a := DropTrailing(path, sep, true);
      if a == [] then [sep]
      else
        var b := DropTrailing(a, sep, false);
        if b == [] then "."
        else
          var c := DropTrailing(b, sep, true);
          if c == [] then [sep] else c
  }

  /** Dropping a trailing run that consists only of the dropped kind stops
      exactly at the boundary. */
  lemma {:induction false} DropTrailingAppend(x: string, y: string, sep: char, onSep: bool)
    requires x == [] || (x[|x| - 1] == sep) != onSep
    requires forall i :: 0 <= i < |y| ==> (y[i] == sep) == onSep
    ensures DropTrailing(x + y, sep, onSep) == x
    decreases |y|
  {
    if y == [] {
      assert x + y == x;
    } else {
      var y' := y[..|y| - 1];
      assert (x + y)[..|x + y| - 1] == x + y';
      DropTrailingAppend(x, y', sep, onSep);
    }
  }

  /** The directory of `dir/file` is `dir`. */
  lemma DirnameOfChild(dir: string, file: string, sep: char)
    requires dir != [] && dir[|dir| - 1] != sep
    requires file != [] && sep !in file
    ensures Dirname(dir + [sep] + file, sep) == dir
  {
    var path := dir + [sep] + file;
    DropTrailingAppend(path, [], sep, true);
    assert path + [] == path;
    assert forall i :: 0 <= i < |file| ==> file[i] != sep;
    DropTrailingAppend(dir + [sep], file, sep, false);
    DropTrailingAppend(dir, [sep], sep, true);
  }

  /** A bare name has the directory ".". */
  lemma DirnameOfBare(file: string, sep: char)
    requires file != [] && sep !in file
    ensures Dirname(file, sep) == "."
  {
    DropTrailingAppend(file, [], sep, true);
    assert file + [] == file;
    assert forall i :: 0 <= i < |file| ==> file[i] != sep;
    DropTrailingAppend([], file, sep, false);
    assert [] + file == file;
  }
}
