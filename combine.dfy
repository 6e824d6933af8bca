/** Combining an article's paragraphs into one text: `String.Join(' ', paragraphs)`. */
module Combine {

  /** The paragraphs joined with a single space between neighbours. The
      joined text is as long as all paragraphs together plus one separator
      between each neighbouring pair; no paragraphs give "". Where each
      paragraph sits in it is stated by `JoinAt`. */
  function Join(ps: seq<string>): (r: string)
    ensures |r| == TotalLength(ps) + (if |ps| == 0 then 0 else |ps| - 1)
    ensures |ps| == 0 ==> r == ""
  {
    if |ps| == 0 then ""
    else if |ps| == 1 then ps[0]
    else ps[0] + " " + Join(ps[1..])
  }

  /** The sum of the lengths of the strings in `ss`. */
  function TotalLength(ss: seq<string>): nat
  {
    if ss == [] then 0 else |ss[0]| + TotalLength(ss[1..])
  }

  /** Where paragraph `i` starts in the joined text: every earlier paragraph
      and one separator after each of them. */
  function Offset(ps: seq<string>, i: nat): nat
    requires i <= |ps|
  {
    TotalLength(ps[..i]) + i
  }

  /** Total length distributes over concatenation. */
  lemma {:induction false} TotalLengthConcat(a: seq<string>, b: seq<string>)
    ensures TotalLength(a + b) == TotalLength(a) + TotalLength(b)
  {
    if a != [] {
      assert (a + b)[1..] == a[1..] + b;
      TotalLengthConcat(a[1..], b);
    } else {
      assert a + b == b;
    }
  }

  /** Paragraph `i` appears verbatim at `Offset(ps, i)`; it is followed by
      exactly one space when another paragraph comes after it, and by the end
      of the text when it is the last one. With `Offset(ps, 0) == 0` this
      says the joined text is the paragraphs in order, separated by single
      spaces, with nothing added at either end. */
  lemma {:induction false} JoinAt(ps: seq<string>, i: nat)
    requires i < |ps|
    ensures i + 1 < |ps| ==> Offset(ps, i) + |ps[i]| < |Join(ps)|
    ensures i + 1 == |ps| ==> Offset(ps, i) + |ps[i]| == |Join(ps)|
    ensures Join(ps)[Offset(ps, i)..Offset(ps, i) + |ps[i]|] == ps[i]
    ensures i + 1 < |ps| ==> Join(ps)[Offset(ps, i) + |ps[i]|] == ' '
  {
    assert ps[..0] == [];
    if |ps| == 1 {
    } else if i == 0 {
      assert Join(ps) == ps[0] + " " + Join(ps[1..]);
    } else {
      var rest := ps[1..];
      JoinAt(rest, i - 1);
      OffsetStep(ps, i);
      var o := Offset(rest, i - 1);
      var head := ps[0] + " ";
      assert Join(ps) == head + Join(rest);
      assert rest[i - 1] == ps[i];
      SliceOfSuffix(head, Join(rest), o, o + |ps[i]|);
    }
  }

  /** Past the first paragraph, offsets shift by its length and one separator. */
  lemma OffsetStep(ps: seq<string>, i: nat)
    requires 0 < i <= |ps|
    ensures Offset(ps, i) == |ps[0]| + 1 + Offset(ps[1..], i - 1)
  {
    assert ps[..i][1..] == ps[1..][..i - 1];
  }

  /** A slice of the second half of a concatenation. */
  lemma SliceOfSuffix(p: string, t: string, a: nat, b: nat)
    requires a <= b <= |t|
    ensures (p + t)[|p| + a..|p| + b] == t[a..b]
    ensures b < |t| ==> (p + t)[|p| + b] == t[b]
  {
  }
}
