/** Well-nested parentheses in a predicate string. */
module Grouping {
  import opened Joins

  /** Scans `s` from an open-parenthesis depth `depth`: the depth left at
      the end, or -1 as soon as a `)` has nothing to close. */
  function Scan(s: string, depth: nat): (r: int)
    ensures r >= -1
  {
    if |s| == 0 then depth
    else if s[0] == '(' then Scan(s[1..], depth + 1)
    else if s[0] == ')' then (if depth == 0 then -1 else Scan(s[1..], depth - 1))
    else Scan(s[1..], depth)
  }

  /** Every `)` closes an earlier `(` and every `(` is closed. */
  predicate Balanced(s: string)
  {
    Scan(s, 0) == 0
  }

  predicate ParenFree(s: string)
  {
    AvoidsChar(s, '(') && AvoidsChar(s, ')')
  }

  /** Scanning a concatenation scans the halves one after the other. */
  lemma {:induction false} ScanAppend(a: string, b: string, depth: nat)
    ensures Scan(a + b, depth) == if Scan(a, depth) < 0 then -1 else Scan(b, Scan(a, depth))
    decreases |a|
  {
    if |a| > 0 {
      assert (a + b)[0] == a[0];
      assert (a + b)[1..] == a[1..] + b;
      if a[0] == '(' {
        ScanAppend(a[1..], b, depth + 1);
      } else if a[0] == ')' {
        if depth > 0 {
          ScanAppend(a[1..], b, depth - 1);
        }
      } else {
        ScanAppend(a[1..], b, depth);
      }
    } else {
      assert a + b == b;
    }
  }

  /** Starting deeper shifts a successful scan by the same amount. */
  lemma {:induction false} ScanShift(s: string, depth: nat, extra: nat)
    requires Scan(s, depth) >= 0
    ensures Scan(s, depth + extra) == Scan(s, depth) + extra
    decreases |s|
  {
    if |s| > 0 {
      if s[0] == '(' {
        ScanShift(s[1..], depth + 1, extra);
      } else if s[0] == ')' {
        ScanShift(s[1..], depth - 1, extra);
      } else {
        ScanShift(s[1..], depth, extra);
      }
    }
  }

  /** A string without parentheses leaves the depth unchanged. */
  lemma {:induction false} ScanParenFree(s: string, depth: nat)
    requires ParenFree(s)
    ensures Scan(s, depth) == depth
    decreases |s|
  {
    if |s| > 0 {
      assert s[0] != '(' && s[0] != ')';
      assert ParenFree(s[1..]) by {
        forall i | 0 <= i < |s[1..]| ensures s[1..][i] != '(' && s[1..][i] != ')' {
          assert s[1..][i] == s[i + 1];
        }
      }
      ScanParenFree(s[1..], depth);
    }
  }

  lemma ParenFreeIsBalanced(s: string)
    requires ParenFree(s)
    ensures Balanced(s)
  {
    ScanParenFree(s, 0);
  }

  lemma BalancedConcat(a: string, b: string)
    requires Balanced(a) && Balanced(b)
    ensures Balanced(a + b)
  {
    ScanAppend(a, b, 0);
  }

  /** Wrapping a balanced string in one pair of parentheses keeps it balanced. */
  lemma BalancedWrap(s: string)
    requires Balanced(s)
    ensures Balanced("(" + s + ")")
  {
    ScanAppend("(", s, 0);
    ScanShift(s, 0, 1);
    ScanAppend("(" + s, ")", 0);
  }

  /** A join of balanced parts with a balanced separator is balanced. */
  lemma {:induction false} BalancedJoin(parts: seq<string>, sep: string)
    requires Balanced(sep)
    requires forall k :: 0 <= k < |parts| ==> Balanced(parts[k])
    ensures Balanced(Join(parts, sep))
    decreases |parts|
  {
    if |parts| > 1 {
      BalancedJoin(parts[1..], sep);
      BalancedConcat(parts[0], sep);
      BalancedConcat(parts[0] + sep, Join(parts[1..], sep));
    }
  }
}
