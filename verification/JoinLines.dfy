// The output join of gen5/g5_cgdriver.dc: halving the line count at each step
// copies every byte only log n times.
module JoinLines {

  // The first n lines, each ended by a newline, and the lines left over.
  function JoinN(ls: seq<string>, n: int): (string, seq<string>)
    decreases n
  {
    if n <= 0 then ("", ls)
    else if n == 1 then if ls == [] then ("", []) else (ls[0] + "\n", ls[1..])
    else
      var (a, r1) := JoinN(ls, n / 2);
      var (b, r2) := JoinN(r1, n - n / 2);
      (a + b, r2)
  }

  function Joined(ls: seq<string>): string { JoinN(ls, |ls|).0 }

  // One line after the other.
  function Linear(ls: seq<string>): string { if ls == [] then "" else ls[0] + "\n" + Linear(ls[1..]) }

  lemma {:induction false} LinearAppend(a: seq<string>, b: seq<string>)
    ensures Linear(a + b) == Linear(a) + Linear(b)
  {
    if a == [] {
      assert a + b == b;
    } else {
      LinearAppend(a[1..], b);
      assert (a + b)[1..] == a[1..] + b && (a + b)[0] == a[0];
    }
  }

  function Upto(ls: seq<string>, n: nat): (k: nat)
    ensures k <= |ls|
  {
    if n <= |ls| then n else |ls|
  }

  function Split(ls: seq<string>, n: nat): (string, seq<string>) { (Linear(ls[..Upto(ls, n)]), ls[Upto(ls, n)..]) }

  lemma {:induction false} NoLines(ls: seq<string>, n: nat)
    requires n == 0 || ls == []
    ensures Linear(ls[..Upto(ls, n)]) == "" && ls[Upto(ls, n)..] == ls
  {
  }

  lemma {:induction false} OneLine(ls: seq<string>)
    requires ls != []
    ensures Linear(ls[..1]) == ls[0] + "\n"
  {
    assert ls[..1][1..] == [];
    assert Linear(ls[..1]) == ls[0] + "\n" + "";
  }

  lemma {:induction false} Halves(ls: seq<string>, h: nat, n: nat)
    requires h <= n
    ensures var (a, r1) := Split(ls, h); var (b, r2) := Split(r1, n - h);
            Split(ls, n) == (a + b, r2)
  {
    hide Linear;
    var k1, k := Upto(ls, h), Upto(ls, n);
    var k2 := Upto(ls[k1..], n - h);
    assert k1 + k2 == k;
    LinearAppend(ls[..k1], ls[k1..k]);
    assert ls[..k1] + ls[k1..k] == ls[..k] && ls[k1..][..k2] == ls[k1..k] && ls[k1..][k2..] == ls[k..];
  }

  // For any count, short of lines or not.
  lemma {:induction false} JoinNIs(ls: seq<string>, n: nat)
    ensures JoinN(ls, n) == Split(ls, n)
    decreases n
  {
    hide Split;
    if n > 1 {
      JoinNIs(ls, n / 2);
      JoinNIs(Split(ls, n / 2).1, n - n / 2);
      Halves(ls, n / 2, n);
    } else {
      JoinFew(ls, n);
    }
  }

  lemma {:induction false} JoinFew(ls: seq<string>, n: nat)
    requires n <= 1
    ensures JoinN(ls, n) == Split(ls, n)
  {
    if n == 1 && ls != [] { OneLine(ls); } else { NoLines(ls, n); }
  }

  lemma {:induction false} JoinedIsLinear(ls: seq<string>)
    ensures Joined(ls) == Linear(ls)
  {
    JoinNIs(ls, |ls|);
    assert ls[..|ls|] == ls;
  }
}
