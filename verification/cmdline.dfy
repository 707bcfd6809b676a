/**
 The display form of a process command line: the line read from
 /proc/<pid>/cmdline with every NUL separator replaced by a space.
 */
module CmdLine {

  /** The character std::replace leaves in place of `c`. */
  function Displayed(c: char): char
  {
    if c == '\0' then ' ' else c
  }

  /** cmdLineForPid's transformation of the line it read. */
  function Normalize(line: string): (r: string)
    ensures |r| == |line|
    ensures forall i :: 0 <= i < |line| ==> r[i] == Displayed(line[i])
    ensures '\0' !in r
    decreases |line|
  {
    if |line| == 0 then [] else [Displayed(line[0])] + Normalize(line[1..])
  }

  /** Nothing is trimmed: a NUL at the end of the line becomes a space at the end. */
  lemma TrailingNulBecomesSpace(line: string)
    requires |line| > 0 && line[|line| - 1] == '\0'
    ensures |Normalize(line)| == |line|
    ensures Normalize(line)[|line| - 1] == ' '
  {
  }

  /** A line without NULs is displayed as it is. */
  lemma {:induction false} NormalizeWithoutNul(line: string)
    requires '\0' !in line
    ensures Normalize(line) == line
  {
    var r := Normalize(line);
    assert |r| == |line|;
    forall i | 0 <= i < |line|
      ensures r[i] == line[i]
    {
      assert line[i] != '\0';
    }
  }

  /** Normalizing twice is normalizing once. */
  lemma NormalizeIdempotent(line: string)
    ensures Normalize(Normalize(line)) == Normalize(line)
  {
    NormalizeWithoutNul(Normalize(line));
  }

  /** Normalizing a concatenation normalizes each part. */
  lemma {:induction false} NormalizeAppend(a: string, b: string)
    ensures Normalize(a + b) == Normalize(a) + Normalize(b)
  {
    var l := Normalize(a + b);
    var r := Normalize(a) + Normalize(b);
    assert |l| == |r|;
    forall i | 0 <= i < |l|
      ensures l[i] == r[i]
    {
      if i < |a| {
        assert (a + b)[i] == a[i];
      } else {
        assert (a + b)[i] == b[i - |a|];
      }
    }
  }

  /** "ls\0-la\0/tmp\0" is displayed as "ls -la /tmp ", trailing space included. */
  lemma Example(line: string)
    requires line == "ls\0-la\0/tmp\0"
    ensures Normalize(line) == "ls -la /tmp "
  {
    var r := Normalize(line);
    assert r[0] == 'l' && r[1] == 's' && r[2] == ' ' && r[3] == '-';
    assert r[4] == 'l' && r[5] == 'a' && r[6] == ' ' && r[7] == '/';
    assert r[8] == 't' && r[9] == 'm' && r[10] == 'p' && r[11] == ' ';
  }
}
