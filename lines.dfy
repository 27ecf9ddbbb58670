/** Cleaning of input lines before parsing: a `#` starts a comment that runs
    to the end of the line, whitespace around what is left is trimmed, and
    lines left empty are skipped. */
module Lines {

  /** The characters trim removes: space, tab, carriage return, newline. */
  predicate IsSpace(c: char) {
    c == ' ' || c == '\t' || c == '\r' || c == '\n'
  }

  predicate AllSpace(s: string) {
    forall i :: 0 <= i < |s| ==> IsSpace(s[i])
  }

  /** Index of the first character that is not whitespace, |s| if there is none. */
  function FirstNonSpace(s: string): (n: nat)
    ensures n <= |s|
    ensures forall i :: 0 <= i < n ==> IsSpace(s[i])
    ensures n < |s| ==> !IsSpace(s[n])
    decreases |s|
  {
    if s == [] || !IsSpace(s[0]) then 0 else 1 + FirstNonSpace(s[1..])
  }

  /** Number of whitespace characters at the end of s. */
  function TrailingSpaces(s: string): (n: nat)
    ensures n <= |s|
    ensures forall i :: |s| - n <= i < |s| ==> IsSpace(s[i])
    ensures n < |s| ==> !IsSpace(s[|s| - 1 - n])
    decreases |s|
  {
    if s == [] || !IsSpace(s[|s| - 1]) then 0 else 1 + TrailingSpaces(s[..|s| - 1])
  }

  /** The line without leading and trailing whitespace: empty exactly when
      the line is all whitespace, and otherwise starting and ending with a
      non-whitespace character. */
  function Trim(line: string): (r: string)
    ensures r == [] <==> AllSpace(line)
    ensures r != [] ==> !IsSpace(r[0]) && !IsSpace(r[|r| - 1])
  {
    var first := FirstNonSpace(line);
    if first == |line| then
      []
    else
      var last := |line| - 1 - TrailingSpaces(line);
      assert first <= last;
      line[first..last + 1]
  }

  /** Trim keeps a contiguous piece of the line and removes only whitespace
      around it. */
  lemma TrimIsPiece(line: string)
    ensures var r := Trim(line);
            exists p :: 0 <= p <= |line| - |r| && r == line[p..p + |r|]
                        && AllSpace(line[..p]) && AllSpace(line[p + |r|..])
  {
    var first := FirstNonSpace(line);
    if first == |line| {
      assert line[..0] == [] && line[0..] == line;
    } else {
      var last := |line| - 1 - TrailingSpaces(line);
      assert AllSpace(line[..first]) && AllSpace(line[last + 1..]);
      assert Trim(line) == line[first..first + (last + 1 - first)];
    }
  }

  /** Trim's result is determined by its contract: if the line is whitespace,
      then r, then whitespace, with r empty or not starting or ending in
      whitespace, trimming gives r. */
  lemma TrimUnique(p: string, r: string, q: string)
    requires AllSpace(p) && AllSpace(q)
    requires r == [] || (!IsSpace(r[0]) && !IsSpace(r[|r| - 1]))
    ensures Trim(p + r + q) == r
  {
    var s := p + r + q;
    if r == [] {
      assert AllSpace(s) by {
        forall i | 0 <= i < |s| ensures IsSpace(s[i]) {
          if i < |p| { assert s[i] == p[i]; } else { assert s[i] == q[i - |p|]; }
        }
      }
    } else {
      assert s[|p|] == r[0];
      assert s[|p| + |r| - 1] == r[|r| - 1];
      assert forall i :: 0 <= i < |p| ==> s[i] == p[i];
      assert FirstNonSpace(s) == |p|;
      assert forall i :: 0 <= i < |q| ==> s[|p| + |r| + i] == q[i];
      assert TrailingSpaces(s) == |q|;
      assert s[|p| .. |p| + |r|] == r;
    }
  }

  /** Trimming twice is trimming once. */
  lemma TrimIdempotent(line: string)
    ensures Trim(Trim(line)) == Trim(line)
  {
    var r := Trim(line);
    assert [] + r + [] == r;
    TrimUnique([], r, []);
  }

  /** Index of the first `#` (where a comment starts), |s| if there is none. */
  function CommentStart(s: string): (n: nat)
    ensures n <= |s|
    ensures forall i :: 0 <= i < n ==> s[i] != '#'
    ensures n < |s| ==> s[n] == '#'
    decreases |s|
  {
    if s == [] || s[0] == '#' then 0 else 1 + CommentStart(s[1..])
  }

  /** The line up to its first `#`: the longest prefix without a `#`. */
  function StripComment(line: string): (r: string)
    ensures r <= line && '#' !in r
    ensures |r| < |line| ==> line[|r|] == '#'
  {
    line[..CommentStart(line)]
  }

  /** What getNextLine makes of one raw line. */
  function Clean(line: string): string {
    Trim(StripComment(line))
  }

  /** A cleaned line holds no `#` and no whitespace at either end. */
  lemma CleanShape(line: string)
    ensures '#' !in Clean(line)
    ensures Clean(line) != [] ==> !IsSpace(Clean(line)[0]) && !IsSpace(Clean(line)[|Clean(line)| - 1])
  {
    var s, r := StripComment(line), Clean(line);
    var first := FirstNonSpace(s);
    if first < |s| {
      var last := |s| - 1 - TrailingSpaces(s);
      assert r == s[first..last + 1];
      forall i | 0 <= i < |r| ensures r[i] != '#' {
        assert r[i] == s[first + i];
      }
    }
  }

  /** One pass of getNextLine's loop body: cut the line at its first `#`,
      then trim it. */
  method CleanLine(raw: string) returns (line: string)
    ensures line == Clean(raw)
  {
    var kept := raw;
    var cut := CommentStart(raw);
    if cut < |raw| {
      kept := raw[..cut];
    }
    assert kept == StripComment(raw);
    line := Trim(kept);
  }

  /** Read lines from position pos until one is non-empty after its comment
      is cut off and it is trimmed. The stream is the sequence of its lines;
      running out of lines is the end-of-stream failure (found is false). */
  method GetNextLine(lines: seq<string>, pos: nat) returns (found: bool, line: string, next: nat)
    requires pos <= |lines|
    ensures found ==> pos < next <= |lines| && line == Clean(lines[next - 1])
    ensures found ==> line != [] && '#' !in line
    ensures found ==> forall k :: pos <= k < next - 1 ==> Clean(lines[k]) == []
    ensures !found ==> next == |lines| && forall k :: pos <= k < |lines| ==> Clean(lines[k]) == []
  {
    line, next := [], pos;
    while line == []
      invariant pos <= next <= |lines|
      invariant line == [] ==> forall k :: pos <= k < next ==> Clean(lines[k]) == []
      invariant line != [] ==> pos < next && line == Clean(lines[next - 1])
      invariant line != [] ==> forall k :: pos <= k < next - 1 ==> Clean(lines[k]) == []
      decreases |lines| - next
    {
      if next == |lines| {
        return false, [], next;
      }
      line := CleanLine(lines[next]);
      next := next + 1;
    }
    CleanShape(lines[next - 1]);
    found := true;
  }
}
