/** `Array.prototype.join` on arrays of strings, and how joins compose. */
module Joins {

  /** Sum of the lengths of all parts. */
  function TotalLength(parts: seq<string>): nat
  {
    if |parts| == 0 then 0 else |parts[0]| + TotalLength(parts[1..])
  }

  /** `parts.join(sep)`: the parts in order with one `sep` between neighbours. */
  function Join(parts: seq<string>, sep: string): string
    decreases |parts|
  {
    if |parts| == 0 then ""
    else if |parts| == 1 then parts[0]
    else parts[0] + sep + Join(parts[1..], sep)
  }

  /** A join is as long as its parts plus one separator between each pair of
      neighbours, and starts with the first part. */
  lemma {:induction false} JoinLength(parts: seq<string>, sep: string)
    requires |parts| > 0
    ensures |Join(parts, sep)| == TotalLength(parts) + (|parts| - 1) * |sep|
    ensures Join(parts, sep)[..|parts[0]|] == parts[0]
    decreases |parts|
  {
    if |parts| > 1 {
      JoinLength(parts[1..], sep);
    }
  }

  lemma JoinSingleton(x: string, sep: string)
    ensures Join([x], sep) == x
  {
  }

  /** Joining a concatenation is joining each half and putting one separator between them. */
  lemma {:induction false} JoinAppend(a: seq<string>, b: seq<string>, sep: string)
    requires |a| > 0 && |b| > 0
    ensures Join(a + b, sep) == Join(a, sep) + sep + Join(b, sep)
    decreases |a|
  {
    if |a| == 1 {
      assert (a + b)[1..] == b;
    } else {
      assert (a + b)[1..] == a[1..] + b;
      JoinAppend(a[1..], b, sep);
    }
  }

  /** No position of `s` holds `c`. */
  predicate AvoidsChar(s: string, c: char)
  {
    forall i :: 0 <= i < |s| ==> s[i] != c
  }

  /** A join avoids a character when every part and the separator avoid it. */
  lemma {:induction false} JoinAvoids(parts: seq<string>, sep: string, c: char)
    requires AvoidsChar(sep, c)
    requires forall k :: 0 <= k < |parts| ==> AvoidsChar(parts[k], c)
    ensures AvoidsChar(Join(parts, sep), c)
    decreases |parts|
  {
    if |parts| > 1 {
      JoinAvoids(parts[1..], sep, c);
      var rest := Join(parts[1..], sep);
      assert Join(parts, sep) == parts[0] + sep + rest;
      forall i | 0 <= i < |parts[0] + sep + rest|
        ensures (parts[0] + sep + rest)[i] != c
      {
        if i < |parts[0]| {
        } else if i < |parts[0]| + |sep| {
          assert (parts[0] + sep + rest)[i] == sep[i - |parts[0]|];
        } else {
          assert (parts[0] + sep + rest)[i] == rest[i - |parts[0]| - |sep|];
        }
      }
    }
  }

  /** A concatenation avoids a character exactly when both halves do. */
  lemma AvoidsConcat(a: string, b: string, c: char)
    ensures AvoidsChar(a + b, c) <==> AvoidsChar(a, c) && AvoidsChar(b, c)
  {
    if AvoidsChar(a + b, c) {
      forall i | 0 <= i < |a| ensures a[i] != c {
        assert (a + b)[i] == a[i];
      }
      forall i | 0 <= i < |b| ensures b[i] != c {
        assert (a + b)[|a| + i] == b[i];
      }
    }
    if AvoidsChar(a, c) && AvoidsChar(b, c) {
      forall i | 0 <= i < |a + b| ensures (a + b)[i] != c {
        if i >= |a| {
          assert (a + b)[i] == b[i - |a|];
        }
      }
    }
  }
}
