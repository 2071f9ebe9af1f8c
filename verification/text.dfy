/** Text files as lines, and the splitting a reader of them performs. */
module Text {

  /** The position of the first `c` in `s`. */
  function IndexOf(s: string, c: char): (i: nat)
    requires c in s
    ensures i < |s| && s[i] == c && c !in s[..i]
  {
    if s[0] == c then 0
    else
      assert s == [s[0]] + s[1..];
      1 + IndexOf(s[1..], c)
  }

  /** `s.split(sep)`: the pieces between consecutive occurrences of `sep`. */
  function Split(s: string, sep: char): (parts: seq<string>)
    ensures |parts| >= 1
    decreases |s|
  {
    if sep !in s then [s]
    else
      var i := IndexOf(s, sep);
      [s[..i]] + Split(s[i + 1..], sep)
  }

  /** `sep.join(parts)`. */
  function Join(parts: seq<string>, sep: char): string
    requires |parts| >= 1
  {
    if |parts| == 1 then parts[0] else parts[0] + [sep] + Join(parts[1..], sep)
  }

  /** The text of a file written line by line, each line ended by a line break. */
  function FileText(lines: seq<string>): string
  {
    if lines == [] then "" else lines[0] + "\n" + FileText(lines[1..])
  }

  /** Splitting undoes joining when no part holds the separator. */
  lemma {:induction false} SplitJoin(parts: seq<string>, sep: char)
    requires |parts| >= 1 && forall k :: 0 <= k < |parts| ==> sep !in parts[k]
    ensures Split(Join(parts, sep), sep) == parts
    decreases |parts|
  {
    if |parts| == 1 {
      assert Join(parts, sep) == parts[0];
    } else {
      var p := parts[0];
      var rest := Join(parts[1..], sep);
      var s := Join(parts, sep);
      assert s == p + [sep] + rest;
      assert s[..|p|] == p && s[|p|] == sep;
      assert sep in s;
      var i := IndexOf(s, sep);
      assert i == |p|;
      assert s[i + 1..] == rest;
      SplitJoin(parts[1..], sep);
    }
  }

  /** A file written line by line is the lines joined by line breaks, with one more break at the end. */
  lemma {:induction false} FileTextIsJoin(lines: seq<string>)
    ensures FileText(lines) == Join(lines + [""], '\n')
  {
    if lines != [] {
      FileTextIsJoin(lines[1..]);
      assert (lines + [""])[1..] == lines[1..] + [""];
    }
  }

  /**
   * Reading a file written line by line gives back its lines (and the empty
   * piece after the final line break), provided no line holds a line break.
   */
  lemma FileTextLines(lines: seq<string>)
    requires forall k :: 0 <= k < |lines| ==> '\n' !in lines[k]
    ensures Split(FileText(lines), '\n') == lines + [""]
  {
    FileTextIsJoin(lines);
    SplitJoin(lines + [""], '\n');
  }
}
