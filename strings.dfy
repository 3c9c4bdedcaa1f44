/** String building blocks used by the dump engine. */
module Strings {

  /** PHP's `implode(sep, parts)`: the parts in order, with `sep` between each pair of neighbours. */
  function Join(parts: seq<string>, sep: string): string
  {
    if |parts| == 0 then ""
    else if |parts| == 1 then parts[0]
    else parts[0] + sep + Join(parts[1..], sep)
  }

  /** The parts written one after the other, as a sequence of `.=` appends produces them. */
  function Concat(parts: seq<string>): string
  {
    if parts == [] then "" else Concat(parts[..|parts| - 1]) + parts[|parts| - 1]
  }

  /** The sum of the lengths of the parts. */
  function TotalLength(parts: seq<string>): nat
  {
    if parts == [] then 0 else |parts[0]| + TotalLength(parts[1..])
  }

  /** Regrouping a concatenation leaves it unchanged. */
  lemma AppendAssociative(a: string, b: string, c: string)
    ensures (a + b) + c == a + (b + c)
  {
  }

  /** Every part wrapped between `open` and `close`. */
  function Enclose(parts: seq<string>, open: string, close: string): seq<string>
  {
    seq(|parts|, i requires 0 <= i < |parts| => open + parts[i] + close)
  }

  /** Appending one more part to a join adds exactly one separator, and none to an empty join. */
  lemma {:induction false} JoinSnoc(parts: seq<string>, x: string, sep: string)
    ensures Join(parts + [x], sep) == if parts == [] then x else Join(parts, sep) + sep + x
    decreases |parts|
  {
    if |parts| == 0 {
      assert parts + [x] == [x];
    } else if |parts| == 1 {
      assert parts + [x] == [parts[0], x];
      assert [parts[0], x][1..] == [x];
    } else {
      assert (parts + [x])[1..] == parts[1..] + [x];
      JoinSnoc(parts[1..], x, sep);
    }
  }

  /** A join of n parts holds exactly n - 1 separators (none for an empty or one-part list):
      there is no leading or trailing separator. */
  lemma {:induction false} JoinLength(parts: seq<string>, sep: string)
    ensures |Join(parts, sep)| == TotalLength(parts) + if parts == [] then 0 else |sep| * (|parts| - 1)
    decreases |parts|
  {
    if |parts| > 1 {
      JoinLength(parts[1..], sep);
      assert TotalLength(parts[1..]) == |parts[1]| + TotalLength(parts[2..]);
      assert parts[1..][1..] == parts[2..];
    } else if |parts| == 1 {
      assert parts[1..] == [];
    }
  }

  /** Concatenation distributes over appending part lists. */
  lemma {:induction false} ConcatAppend(a: seq<string>, b: seq<string>)
    ensures Concat(a + b) == Concat(a) + Concat(b)
    decreases |b|
  {
    if b == [] {
      assert a + b == a;
    } else {
      var c := a + b;
      assert c[..|c| - 1] == a + b[..|b| - 1];
      assert c[|c| - 1] == b[|b| - 1];
      ConcatAppend(a, b[..|b| - 1]);
    }
  }

  /** Joining with q + sep + q and wrapping the whole between two q is the same as wrapping each
      part between two q and joining with sep, for a non-empty list (q a backtick, sep ", "). */
  lemma {:induction false} JoinEnclosed(parts: seq<string>, q: string, sep: string)
    requires parts != []
    ensures q + Join(parts, q + sep + q) + q == Join(Enclose(parts, q, q), sep)
    decreases |parts|
  {
    var e := Enclose(parts, q, q);
    if |parts| > 1 {
      JoinEnclosed(parts[1..], q, sep);
      assert e[1..] == Enclose(parts[1..], q, q);
      calc {
        q + Join(parts, q + sep + q) + q;
        q + (parts[0] + (q + sep + q) + Join(parts[1..], q + sep + q)) + q;
        (q + parts[0] + q) + sep + (q + Join(parts[1..], q + sep + q) + q);
        e[0] + sep + Join(e[1..], sep);
      }
    }
  }

  /** A join whose separator is the terminator, closed by one more terminator, is every part
      followed by its own terminator, for a non-empty list. */
  lemma {:induction false} JoinTerminated(parts: seq<string>, t: string)
    requires parts != []
    ensures Join(parts, t) + t == Concat(Enclose(parts, "", t))
    decreases |parts|
  {
    var n := |parts|;
    var init, last := parts[..n - 1], parts[n - 1];
    var e := Enclose(parts, "", t);
    assert e[n - 1] == last + t;
    assert Concat(e) == Concat(e[..n - 1]) + e[n - 1];
    assert e[..n - 1] == Enclose(init, "", t);
    if n == 1 {
      assert Join(parts, t) == last;
    } else {
      assert parts == init + [last];
      JoinSnoc(init, last, t);
      JoinTerminated(init, t);
      calc {
        Join(parts, t) + t;
        Join(init, t) + t + last + t;
        Concat(Enclose(init, "", t)) + (last + t);
      }
    }
  }
}
