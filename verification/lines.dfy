/**
 Joining lines into one text, as JavaScript's `Array.prototype.join` does,
 and the matching `String.prototype.split` on a one-character separator,
 which serves as the reader that takes a joined text apart again.
 */
module Lines {

  /** `lines.join(sep)`: the empty list gives the empty string, and a
      separator goes between neighbours only. */
  function Join(lines: seq<string>, sep: char): string {
    if |lines| == 0 then ""
    else if |lines| == 1 then lines[0]
    else lines[0] + [sep] + Join(lines[1..], sep)
  }

  /** `s.split(sep)`: the pieces between separators, always at least one. */
  function Split(s: string, sep: char): (pieces: seq<string>)
    ensures |pieces| >= 1
  {
    if s == [] then [""]
    else
      var rest := Split(s[1..], sep);
      if s[0] == sep then [""] + rest
      else [[s[0]] + rest[0]] + rest[1..]
  }

  /** No line contains the separator. */
  predicate NoSeparator(lines: seq<string>, sep: char) {
    forall i :: 0 <= i < |lines| ==> sep !in lines[i]
  }

  lemma {:induction false} SplitWithoutSeparator(s: string, sep: char)
    requires sep !in s
    ensures Split(s, sep) == [s]
  {
    if s != [] {
      SplitWithoutSeparator(s[1..], sep);
      assert [s[0]] + s[1..] == s;
    }
  }

  lemma {:induction false} SplitAtFirstSeparator(a: string, b: string, sep: char)
    requires sep !in a
    ensures Split(a + [sep] + b, sep) == [a] + Split(b, sep)
  {
    var s := a + [sep] + b;
    if a == [] {
      assert s[1..] == b;
    } else {
      assert s[1..] == a[1..] + [sep] + b;
      SplitAtFirstSeparator(a[1..], b, sep);
      assert [a[0]] + a[1..] == a;
    }
  }

  /** Splitting a joined text gives the lines back, as long as no line
      contains the separator. */
  lemma {:induction false} SplitJoin(lines: seq<string>, sep: char)
    requires |lines| >= 1 && NoSeparator(lines, sep)
    ensures Split(Join(lines, sep), sep) == lines
  {
    if |lines| == 1 {
      SplitWithoutSeparator(lines[0], sep);
    } else {
      assert NoSeparator(lines[1..], sep) by {
        forall i | 0 <= i < |lines[1..]| ensures sep !in lines[1..][i] {
          assert lines[1..][i] == lines[i + 1];
        }
      }
      SplitJoin(lines[1..], sep);
      assert sep !in lines[0];
      SplitAtFirstSeparator(lines[0], Join(lines[1..], sep), sep);
      assert [lines[0]] + lines[1..] == lines;
    }
  }

  /** The last line of a join stands alone after the last separator. */
  lemma {:induction false} JoinLast(lines: seq<string>, last: string, sep: char)
    requires |lines| >= 1
    ensures Join(lines + [last], sep) == Join(lines, sep) + [sep] + last
  {
    if |lines| == 1 {
      assert (lines + [last])[1..] == [last];
    } else {
      assert (lines + [last])[1..] == lines[1..] + [last];
      JoinLast(lines[1..], last, sep);
    }
  }
}
