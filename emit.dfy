/** The text buffer the generators append to (Go's `strings.Builder`). The
    text is kept as the list of lines written; the buffer's contents are each
    line followed by a newline. */
module Emit {

  class Builder {
    var lines: seq<string>

    constructor ()
      ensures lines == []
    {
      lines := [];
    }

    /** Writes one line; earlier text is never altered. */
    method WriteLine(line: string)
      modifies this
      ensures lines == old(lines) + [line]
    {
      lines := lines + [line];
    }

    /** Writes several lines in order. */
    method WriteLines(ls: seq<string>)
      modifies this
      ensures lines == old(lines) + ls
    {
      lines := lines + ls;
    }
  }

  /** Five writes after `s` leave `s` followed by their concatenation. */
  lemma AppendFive<T>(s: seq<T>, a: seq<T>, b: seq<T>, c: seq<T>, d: seq<T>, e: seq<T>)
    ensures s + (a + b + c + d + e) == s + a + b + c + d + e
  {
  }

  /** The text of a list of lines: each line followed by "\n". */
  function Text(lines: seq<string>): (t: string)
    ensures |lines| > 0 ==> |t| > 0 && t[|t| - 1] == '\n'
  {
    if lines == [] then "" else Text(lines[..|lines| - 1]) + lines[|lines| - 1] + "\n"
  }

  /** One line's text is the line and its newline. */
  lemma TextOne(line: string)
    ensures Text([line]) == line + "\n"
  {
    assert [line][..0] == [];
  }

  /** Writing lines in two batches gives the concatenated text. */
  lemma {:induction false} TextAppend(a: seq<string>, b: seq<string>)
    ensures Text(a + b) == Text(a) + Text(b)
    decreases |b|
  {
    if b == [] {
      assert a + b == a;
    } else {
      var b', last := b[..|b| - 1], b[|b| - 1];
      assert (a + b)[..|a + b| - 1] == a + b' && (a + b)[|a + b| - 1] == last;
      calc {
        Text(a + b);
        Text(a + b') + last + "\n";
        { TextAppend(a, b'); }
        Text(a) + Text(b') + last + "\n";
        { assert Text(a) + Text(b') + last + "\n" == Text(a) + (Text(b') + last + "\n"); }
        Text(a) + Text(b);
      }
    }
  }
}
