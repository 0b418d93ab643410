/** The e-mail test both contact pages run before sending anything: the
    JavaScript regular expression `^[^\s@]+@[^\s@]+\.[^\s@]+$` (no flags).
    It is given here twice: `Matches` is what the pattern means (three
    non-empty runs of "neither white space nor @" joined by a literal `@`
    and a literal `.`, anchored at both ends, every split admitted by
    backtracking), and `Shaped` is the plain description of the addresses it
    accepts. `ValidEmail` is the test itself. */
module EmailPattern {

  /** JavaScript's `\s`: the WhiteSpace and LineTerminator code points. */
  predicate IsSpace(c: char) {
    || c == '\t' || c == '\n' || c == '\U{B}' || c == '\U{C}' || c == '\r' || c == ' '
    || c == '\U{A0}' || c == '\U{1680}' || ('\U{2000}' <= c <= '\U{200A}')
    || c == '\U{2028}' || c == '\U{2029}' || c == '\U{202F}' || c == '\U{205F}'
    || c == '\U{3000}' || c == '\U{FEFF}'
  }

  /** One character of the class `[^\s@]`. */
  predicate Atom(c: char) {
    c != '@' && !IsSpace(c)
  }

  /** `[^\s@]+`: a non-empty run of atoms. */
  predicate Run(s: string) {
    |s| > 0 && forall k :: 0 <= k < |s| ==> Atom(s[k])
  }

  /** The whole string matches `^[^\s@]+@[^\s@]+\.[^\s@]+$`: some `@` at `i`
      and some `.` at `j` cut it into three runs. */
  ghost predicate Matches(s: string) {
    exists i, j :: 0 <= i < j < |s| && Split(s, i, j)
  }

  ghost predicate Split(s: string, i: nat, j: nat)
    requires i < j < |s|
  {
    Run(s[..i]) && s[i] == '@' && Run(s[i + 1..j]) && s[j] == '.' && Run(s[j + 1..])
  }

  predicate NoSpace(s: string) {
    forall k :: 0 <= k < |s| ==> !IsSpace(s[k])
  }

  /** `@` sits at `a` and nowhere else. */
  predicate OnlyAt(s: string, a: nat) {
    a < |s| && s[a] == '@' && forall k :: 0 <= k < |s| && k != a ==> s[k] != '@'
  }

  /** The domain after the `@` at `a` has a `.` with at least one character
      on each side. */
  predicate DottedDomain(s: string, a: nat) {
    exists d :: a + 1 < d < |s| - 1 && s[d] == '.'
  }

  /** No white space, exactly one `@`, a non-empty part before it, and a `.`
      strictly inside the part after it. */
  predicate Shaped(s: string) {
    NoSpace(s) && exists a :: 0 < a < |s| && OnlyAt(s, a) && DottedDomain(s, a)
  }

  /** `validEmail` of both contact pages: the regular expression test. */
  function ValidEmail(s: string): (ok: bool)
    ensures ok <==> Matches(s)
    // Names the shape the test is computed by; the content is the line above.
    ensures ok <==> Shaped(s)
  {
    MatchesIffShaped(s);
    Shaped(s)
  }

  lemma RunAt(s: string, lo: nat, hi: nat, k: nat)
    requires lo <= k < hi <= |s| && Run(s[lo..hi])
    ensures Atom(s[k])
  {
    assert s[lo..hi][k - lo] == s[k];
  }

  lemma MakeRun(s: string, lo: nat, hi: nat)
    requires lo < hi <= |s|
    requires forall k :: lo <= k < hi ==> Atom(s[k])
    ensures Run(s[lo..hi])
  {
    forall k | 0 <= k < hi - lo
      ensures Atom(s[lo..hi][k])
    {
      assert s[lo..hi][k] == s[lo + k];
    }
  }

  /** Every character of a split string is an atom, except the `@` and
      the `.` that cut it. */
  lemma SplitAtoms(s: string, i: nat, j: nat)
    requires i < j < |s| && Split(s, i, j)
    ensures forall k :: 0 <= k < |s| && k != i && k != j ==> Atom(s[k])
  {
    assert s[..i] == s[0..i];
    assert s[j + 1..] == s[j + 1..|s|];
    forall k | 0 <= k < |s| && k != i && k != j
      ensures Atom(s[k])
    {
      if k < i {
        RunAt(s, 0, i, k);
      } else if k < j {
        RunAt(s, i + 1, j, k);
      } else {
        RunAt(s, j + 1, |s|, k);
      }
    }
  }

  /** A split at `i` and `j` makes the string shaped, with its one `@` at
      `i` and the domain's `.` at `j`. */
  lemma SplitShaped(s: string, i: nat, j: nat)
    requires i < j < |s| && Split(s, i, j)
    ensures 0 < i && OnlyAt(s, i) && DottedDomain(s, i) && NoSpace(s)
    ensures Shaped(s)
  {
    SplitAtoms(s, i, j);
    assert !IsSpace(s[i]) && !IsSpace(s[j]);
    assert s[..i] == s[0..i];
    assert OnlyAt(s, i);
    assert i + 1 < j < |s| - 1;
    assert DottedDomain(s, i);
  }

  /** A shaped string with its `@` at `a` and a domain `.` at `d` splits
      there. */
  lemma ShapedSplit(s: string, a: nat, d: nat)
    requires NoSpace(s) && 0 < a < |s| && OnlyAt(s, a)
    requires a + 1 < d < |s| - 1 && s[d] == '.'
    ensures Split(s, a, d)
    ensures Matches(s)
  {
    MakeRun(s, 0, a);
    assert s[..a] == s[0..a];
    MakeRun(s, a + 1, d);
    MakeRun(s, d + 1, |s|);
    assert s[d + 1..] == s[d + 1..|s|];
    assert Split(s, a, d);
  }

  /** The regular expression accepts exactly the shaped addresses. */
  lemma MatchesIffShaped(s: string)
    ensures Matches(s) <==> Shaped(s)
  {
    if Matches(s) {
      var i, j :| 0 <= i < j < |s| && Split(s, i, j);
      SplitShaped(s, i, j);
    }
    if Shaped(s) {
      var a :| 0 < a < |s| && OnlyAt(s, a) && DottedDomain(s, a);
      var d :| a + 1 < d < |s| - 1 && s[d] == '.';
      ShapedSplit(s, a, d);
    }
  }
}
