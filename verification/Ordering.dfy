/** The order of strings, character by character. */
module Ordering {

  predicate TextLess(a: string, b: string) {
    if b == [] then false
    else if a == [] then true
    else if a[0] != b[0] then a[0] < b[0]
    else TextLess(a[1..], b[1..])
  }

  lemma TextOrder(a: string, b: string, c: string)
    ensures !TextLess(a, a)
    ensures a == b || TextLess(a, b) || TextLess(b, a)
    ensures TextLess(a, b) && TextLess(b, c) ==> TextLess(a, c)
  {
    if a != [] && b != [] && c != [] {
      TextOrder(a[1..], b[1..], c[1..]);
      assert a == [a[0]] + a[1..] && b == [b[0]] + b[1..];
    } else if a != [] {
      TextOrder(a[1..], [], []);
      if b != [] {
        TextOrder(a[1..], b[1..], []);
        assert a == [a[0]] + a[1..] && b == [b[0]] + b[1..];
      }
    }
  }

  /** A text comes before another exactly when that goes on after it, or has the greater character where they first
      differ. */
  lemma {:induction false} TextLessIff(a: string, b: string)
    ensures TextLess(a, b)
            <==> exists n: nat :: n <= |a| && n < |b| && a[..n] == b[..n] && (n < |a| ==> a[n] < b[n])
    decreases |a|
  {
    if a != [] && b != [] && a[0] == b[0] {
      TextLessIff(a[1..], b[1..]);
      if TextLess(a, b) {
        var n: nat :| n <= |a[1..]| && n < |b[1..]| && a[1..][..n] == b[1..][..n]
          && (n < |a[1..]| ==> a[1..][n] < b[1..][n]);
        assert a[..n + 1] == [a[0]] + a[1..][..n] && b[..n + 1] == [b[0]] + b[1..][..n];
      }
      forall n: nat | n <= |a| && n < |b| && a[..n] == b[..n] && (n < |a| ==> a[n] < b[n]) ensures TextLess(a, b) {
        assert n > 0;
        assert a[1..][..n - 1] == a[..n][1..] && b[1..][..n - 1] == b[..n][1..];
      }
    } else {
      assert a[..0] == b[..0];
      forall n: nat | 0 < n <= |a| && n < |b| && a[..n] == b[..n] ensures a != [] && b != [] && a[0] == b[0] {
        assert a[..n][0] == b[..n][0];
      }
    }
  }

  predicate Ascending(ks: seq<string>) {
    forall i, j | 0 <= i < j < |ks| :: TextLess(ks[i], ks[j])
  }

  /** Put a text where it belongs, unless it is there. */
  function InsertText(ks: seq<string>, k: string): (r: seq<string>)
    requires Ascending(ks)
    ensures Ascending(r) && forall x :: x in r <==> x == k || x in ks
    decreases ks
  {
    if ks == [] then [k]
    else
      TextOrder(k, ks[0], ks[0]);
      if ks[0] == k then ks
      else if TextLess(k, ks[0]) then
        assert forall i | 0 < i < |ks| :: TextLess(k, ks[i]) by {
          forall i | 0 < i < |ks| ensures TextLess(k, ks[i]) { TextOrder(k, ks[0], ks[i]); }
        }
        [k] + ks
      else
        var r := InsertText(ks[1..], k);
        assert forall i | 0 <= i < |r| :: r[i] in r && (r[i] == k || r[i] in ks[1..]);
        [ks[0]] + r
  }

  /** Ascending sequences with the same texts are the same. */
  lemma {:induction false} AscendingIsUnique(a: seq<string>, b: seq<string>)
    requires Ascending(a) && Ascending(b) && forall k :: k in a <==> k in b
    ensures a == b
    decreases |a|
  {
    hide TextLess;
    assert |b| > 0 ==> b[0] in b && b[0] in a;
    assert |a| > 0 ==> a[0] in a && a[0] in b;
    if a != [] {
      var i :| 0 <= i < |b| && b[i] == a[0];
      var j :| 0 <= j < |a| && a[j] == b[0];
      TextOrder(a[0], b[0], a[0]);
      assert i == 0 && j == 0;
      forall k ensures k in a[1..] <==> k in b[1..] {
        RestOfAscending(a, k);
        RestOfAscending(b, k);
      }
      AscendingIsUnique(a[1..], b[1..]);
      assert a == [a[0]] + a[1..] && b == [b[0]] + b[1..];
    }
  }

  lemma RestOfAscending(a: seq<string>, k: string)
    requires Ascending(a) && a != []
    ensures k in a[1..] <==> k in a && k != a[0]
  {
    hide TextLess;
    TextOrder(k, k, k);
    assert a == [a[0]] + a[1..];
    if k in a[1..] {
      var i :| 0 <= i < |a[1..]| && a[1..][i] == k;
      assert TextLess(a[0], a[i + 1]);
    }
  }
}
