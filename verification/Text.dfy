/** Splitting and trimming text at a separator. */
module Text {
  import opened Counting

  /** The parts before and after the first separator. */
  function SplitOnce(s: string, sep: char): Option<(string, string)> {
    if s == [] then None
    else if s[0] == sep then Some(([], s[1..]))
    else
      match SplitOnce(s[1..], sep)
      case None => None
      case Some((a, b)) => Some(([s[0]] + a, b))
  }

  lemma {:induction false} SplitOnceFirst(a: string, sep: char, b: string)
    requires sep !in a
    ensures SplitOnce(a + [sep] + b, sep) == Some((a, b))
  {
    var s := a + [sep] + b;
    if a == [] {
      assert s == [sep] + b;
    } else {
      assert s[1..] == a[1..] + [sep] + b;
      SplitOnceFirst(a[1..], sep, b);
      assert a == [a[0]] + a[1..];
    }
  }

  /** The split says where the first separator is, or that there is none. */
  lemma {:induction false} SplitOnceExactly(s: string, sep: char)
    ensures SplitOnce(s, sep).None? <==> sep !in s
    ensures SplitOnce(s, sep).Some? ==>
              var (a, b) := SplitOnce(s, sep).value; s == a + [sep] + b && sep !in a
  {
    if s != [] && s[0] != sep {
      SplitOnceExactly(s[1..], sep);
      assert s == [s[0]] + s[1..];
    } else if s != [] {
      assert s == [] + [s[0]] + s[1..];
    }
  }

  function TrimStart(s: string, c: char): string {
    if s != [] && s[0] == c then TrimStart(s[1..], c) else s
  }

  function TrimEnd(s: string, c: char): string {
    if s != [] && s[|s| - 1] == c then TrimEnd(s[..|s| - 1], c) else s
  }

  function Repeat(c: char, n: nat): string {
    if n == 0 then [] else [c] + Repeat(c, n - 1)
  }

  lemma {:induction false} TrimStartRepeat(c: char, n: nat, s: string)
    requires s == [] || s[0] != c
    ensures TrimStart(Repeat(c, n) + s, c) == s
  {
    if n == 0 {
      assert Repeat(c, 0) + s == s;
    } else {
      assert (Repeat(c, n) + s)[1..] == Repeat(c, n - 1) + s;
      TrimStartRepeat(c, n - 1, s);
    }
  }

  lemma {:induction false} TrimStartDrops(s: string, c: char) returns (n: nat)
    ensures s == Repeat(c, n) + TrimStart(s, c)
    ensures TrimStart(s, c) == [] || TrimStart(s, c)[0] != c
  {
    if s != [] && s[0] == c {
      var m := TrimStartDrops(s[1..], c);
      n := m + 1;
      assert s == [c] + s[1..] == [c] + (Repeat(c, m) + TrimStart(s, c));
    } else {
      n := 0;
    }
  }

  lemma {:induction false} TrimEndExactly(s: string, c: char)
    ensures TrimEnd(s, c) <= s
    ensures TrimEnd(s, c) == [] || TrimEnd(s, c)[|TrimEnd(s, c)| - 1] != c
    ensures forall i :: |TrimEnd(s, c)| <= i < |s| ==> s[i] == c
  {
    if s != [] && s[|s| - 1] == c {
      TrimEndExactly(s[..|s| - 1], c);
    }
  }
}
