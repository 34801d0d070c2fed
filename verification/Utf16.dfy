/** Text as the engine's language holds it: a sequence of UTF-16 code units, unpaired surrogates included. */
module Utf16 {

  type CodeUnit = c: int | 0 <= c < 0x1_0000
  type Text = seq<CodeUnit>

  /** Strict code-unit order, the order of the argument-less array sort. */
  predicate Less(a: Text, b: Text) {
    b != [] && (a == [] || a[0] < b[0] || (a[0] == b[0] && Less(a[1..], b[1..])))
  }

  lemma {:induction false} LessIrreflexive(a: Text)
    ensures !Less(a, a)
  {
    if a != [] {
      LessIrreflexive(a[1..]);
    }
  }

  lemma {:induction false} LessTransitive(a: Text, b: Text, c: Text)
    requires Less(a, b) && Less(b, c)
    ensures Less(a, c)
  {
    if a != [] && a[0] == b[0] && b[0] == c[0] {
      LessTransitive(a[1..], b[1..], c[1..]);
    }
  }

  lemma {:induction false} LessTotal(a: Text, b: Text)
    ensures a == b || Less(a, b) || Less(b, a)
  {
    if a != [] && b != [] && a[0] == b[0] {
      LessTotal(a[1..], b[1..]);
      assert a == [a[0]] + a[1..] && b == [b[0]] + b[1..];
    }
  }

  /** The texts agree in the first k units, where one of them ends or they differ, with a the smaller. */
  predicate PartsAt(a: Text, b: Text, k: nat) {
    && k <= |a| && k <= |b| && a[..k] == b[..k]
    && ((k == |a| && k < |b|) || (k < |a| && k < |b| && a[k] < b[k]))
  }

  /** The first unit in which the texts differ decides; a text comes before its own extensions. */
  predicate Precedes(a: Text, b: Text) { exists k | 0 <= k <= |a| :: PartsAt(a, b, k) }

  lemma PartsLater(a: Text, b: Text, k: nat)
    requires a != [] && b != [] && a[0] == b[0]
    ensures PartsAt(a, b, k + 1) <==> PartsAt(a[1..], b[1..], k)
  {
    if k + 1 <= |a| && k + 1 <= |b| {
      assert a[..k + 1] == [a[0]] + a[1..][..k] && b[..k + 1] == [b[0]] + b[1..][..k];
      assert a[1..][..k] == a[..k + 1][1..] && b[1..][..k] == b[..k + 1][1..];
    }
  }

  lemma PartsAtOnce(a: Text, b: Text)
    ensures PartsAt(a, b, 0) <==> b != [] && (a == [] || a[0] < b[0])
  {}

  lemma HeadsAgreeBefore(a: Text, b: Text, k: nat)
    requires PartsAt(a, b, k) && k > 0
    ensures a != [] && b != [] && a[0] == b[0]
  {
    assert a[..k][0] == a[0] && b[..k][0] == b[0];
  }

  lemma {:induction false} LessIsPrecedes(a: Text, b: Text)
    ensures Less(a, b) <==> Precedes(a, b)
    decreases |a|
  {
    hide PartsAt;
    PartsAtOnce(a, b);
    if a != [] && b != [] && a[0] == b[0] {
      LessIsPrecedes(a[1..], b[1..]);
      forall k: nat { PartsLater(a, b, k); }
      if Precedes(a[1..], b[1..]) {
        var k :| 0 <= k <= |a[1..]| && PartsAt(a[1..], b[1..], k);
        assert PartsAt(a, b, k + 1);
      }
      if Precedes(a, b) {
        var k :| 0 <= k <= |a| && PartsAt(a, b, k);
        assert PartsAt(a[1..], b[1..], k - 1);
      }
    } else {
      forall k: nat | k > 0 && PartsAt(a, b, k) ensures false { HeadsAgreeBefore(a, b, k); }
    }
  }
}
