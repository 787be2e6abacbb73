/** Shell command lines produced by `str.format` on a fixed template: literal
    text with holes between.  `Fill` is the formatting; `Parse` reads the
    holes back by cutting each one at the first character of the literal
    that follows it.  The round trip shows the filled command determines
    its arguments whenever no argument contains that delimiter. */
module Template {
  import opened Wrappers
  import opened Text

  /** `lits[0] + args[0] + lits[1] + ... + args[n-1] + lits[n]`. */
  function Fill(lits: seq<string>, args: seq<string>): string
    requires |lits| == |args| + 1
    decreases |args|
  {
    if args == [] then lits[0]
    else Fill(lits[..|lits| - 1], args[..|args| - 1]) + args[|args| - 1] + lits[|lits| - 1]
  }

  /** Every literal between two holes is non-empty, so each hole has a
      delimiter; the final literal may be empty (the last hole then runs
      to the end of the line). */
  predicate WellFormed(lits: seq<string>)
  {
    |lits| >= 1 && forall i :: 1 <= i < |lits| - 1 ==> lits[i] != []
  }

  /** The character that ends the hole before literal `lits[i]`. */
  predicate Fits(lits: seq<string>, args: seq<string>)
    requires |lits| == |args| + 1
  {
    forall i :: 0 <= i < |args| ==> lits[i + 1] == [] || lits[i + 1][0] !in args[i]
  }

  function Parse(lits: seq<string>, cmd: string): (r: Option<seq<string>>)
    requires WellFormed(lits)
    ensures r.Some? ==> |r.value| + 1 == |lits|
    decreases |lits|
  {
    if !(lits[0] <= cmd) then None
    else
      var rest := cmd[|lits[0]|..];
      if |lits| == 1 then
        if rest == [] then Some([]) else None
      else if lits[1] == [] then
        // |lits| == 2 here: the last hole takes the rest of the line
        Some([rest])
      else
        match SplitOnce(rest, lits[1][0])
        case None => None
        case Some(cut) =>
          match Parse(lits[1..], [lits[1][0]] + cut.1)
          case None => None
          case Some(more) => Some([cut.0] + more)
  }

  /** Peeling the first literal and hole off the front. */
  lemma {:induction false} FillCons(lits: seq<string>, args: seq<string>)
    requires |lits| == |args| + 1 && args != []
    ensures Fill(lits, args) == lits[0] + args[0] + Fill(lits[1..], args[1..])
    decreases |args|
  {
    var n := |args|;
    if n == 1 {
      assert lits[..1] == [lits[0]] && lits[1..] == [lits[1]];
    } else {
      FillCons(lits[..n], args[..n - 1]);
      var inner := Fill(lits[1..][..n - 1], args[1..][..n - 2]);
      assert lits[..n][1..] == lits[1..][..n - 1];
      assert args[..n - 1][1..] == args[1..][..n - 2];
      assert Fill(lits[..n], args[..n - 1]) == lits[0] + args[0] + inner;
      assert Fill(lits[1..], args[1..]) == inner + args[n - 1] + lits[n] by {
        assert args[1..][n - 2] == args[n - 1];
        assert lits[1..][n - 1] == lits[n];
      }
      assert Fill(lits, args) == (lits[0] + args[0] + inner) + args[n - 1] + lits[n];
    }
  }

  /** `Fill` on a four-hole template, written out. */
  lemma FillFour(lits: seq<string>, a: string, b: string, c: string, d: string)
    requires |lits| == 5
    ensures Fill(lits, [a, b, c, d]) == lits[0] + a + lits[1] + b + lits[2] + c + lits[3] + d + lits[4]
  {
    var l4, l3, l2, l1 := lits[..4], lits[..3], lits[..2], lits[..1];
    assert lits[..4][..3] == l3 && l3[..2] == l2 && l2[..1] == l1;
    assert [a, b, c, d][..3] == [a, b, c] && [a, b, c][..2] == [a, b] && [a, b][..1] == [a];
    assert Fill(l1, []) == lits[0];
    assert Fill(l2, [a]) == lits[0] + a + lits[1];
    assert Fill(l3, [a, b]) == lits[0] + a + lits[1] + b + lits[2];
    assert Fill(l4, [a, b, c]) == lits[0] + a + lits[1] + b + lits[2] + c + lits[3];
  }

  lemma FillStartsWithHead(lits: seq<string>, args: seq<string>)
    requires |lits| == |args| + 1
    ensures lits[0] <= Fill(lits, args)
  {
  }

  /** Dropping the first literal and hole keeps a template well formed
      and its arguments fitting. */
  lemma TailFits(lits: seq<string>, args: seq<string>)
    requires WellFormed(lits) && |lits| == |args| + 1 && Fits(lits, args) && args != []
    ensures WellFormed(lits[1..]) && Fits(lits[1..], args[1..])
  {
    forall i | 1 <= i < |lits[1..]| - 1 ensures lits[1..][i] != [] {
      assert lits[1..][i] == lits[i + 1];
    }
    forall i | 0 <= i < |args[1..]|
      ensures lits[1..][i + 1] == [] || lits[1..][i + 1][0] !in args[1..][i]
    {
      assert lits[1..][i + 1] == lits[i + 2] && args[1..][i] == args[i + 1];
    }
  }

  /** Reading the holes back from a filled template gives the arguments. */
  lemma {:induction false} ParseFill(lits: seq<string>, args: seq<string>)
    requires WellFormed(lits) && |lits| == |args| + 1 && Fits(lits, args)
    ensures Parse(lits, Fill(lits, args)) == Some(args)
    decreases |args|
  {
    var cmd := Fill(lits, args);
    if args == [] {
      assert cmd[|lits[0]|..] == [];
    } else {
      var tail := Fill(lits[1..], args[1..]);
      FillCons(lits, args);
      assert cmd == lits[0] + (args[0] + tail);
      assert cmd[|lits[0]|..] == args[0] + tail;
      assert lits[0] <= cmd;
      if lits[1] == [] {
        assert |lits| == 2;
        assert tail == [];
        assert [args[0]] == args;
        assert cmd[|lits[0]|..] == args[0];
        assert Parse(lits, cmd) == Some([cmd[|lits[0]|..]]);
      } else {
        var d := lits[1][0];
        assert lits[1..][0] == lits[1];
        FillStartsWithHead(lits[1..], args[1..]);
        assert tail == [d] + tail[1..];
        assert args[0] + tail == args[0] + [d] + tail[1..];
        SplitOnceAt(args[0], d, tail[1..]);
        TailFits(lits, args);
        assert tail == Fill(lits[1..], args[1..]);
        ParseFill(lits[1..], args[1..]);
        assert [args[0]] + args[1..] == args;
      }
    }
  }

  /** Two argument lists that fit a well-formed template give the same
      command line only if they are equal. */
  lemma FillInjective(lits: seq<string>, a: seq<string>, b: seq<string>)
    requires WellFormed(lits) && |lits| == |a| + 1 && |lits| == |b| + 1
    requires Fits(lits, a) && Fits(lits, b)
    requires Fill(lits, a) == Fill(lits, b)
    ensures a == b
  {
    ParseFill(lits, a);
    ParseFill(lits, b);
  }
}
