/** Readings of the clock, by when they were taken. */
module ClockReadings {
  /** `t` is one of the readings number lo to hi - 1. */
  ghost predicate ReadIn(read: nat -> real, lo: nat, hi: nat, t: real) {
    exists j: nat :: lo <= j < hi && read(j) == t
  }

  lemma ReadAt(read: nat -> real, lo: nat, j: nat, hi: nat)
    requires lo <= j < hi
    ensures ReadIn(read, lo, hi, read(j))
  {
  }

  lemma ReadWithin(read: nat -> real, lo: nat, hi: nat, less: nat, more: nat, t: real)
    requires ReadIn(read, lo, hi, t) && less <= lo && hi <= more
    ensures ReadIn(read, less, more, t)
  {
    var j: nat :| lo <= j < hi && read(j) == t;
  }

  ghost predicate Increasing(read: nat -> real) {
    forall j: nat, k: nat :: j < k ==> read(j) < read(k)
  }

  /** Of two readings of an increasing clock the earlier range gives the smaller one. */
  lemma EarlierReads(read: nat -> real, lo: nat, hi: nat, t: real, from: nat, to: nat, u: real)
    requires Increasing(read) && ReadIn(read, lo, hi, t) && ReadIn(read, from, to, u) && hi <= from
    ensures t < u
  {
    var j: nat :| lo <= j < hi && read(j) == t;
    var k: nat :| from <= k < to && read(k) == u;
  }
}
