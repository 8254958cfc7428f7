/**
  bot/config.py: the admin allow-list, read from a comma-separated string
  of Telegram ids ("123456789,987654321").
*/
module Config {
  import opened Text

  /**
    What one segment of the list contributes: its number when it is all
    digits once stripped, nothing otherwise ("", "-5", "abc", "1.5").
  */
  function SegmentId(seg: string): (r: seq<nat>)
    ensures |r| <= 1
    ensures r != [] <==> IsDigits(Strip(seg))
    ensures r != [] ==> r[0] == DigitsValue(Strip(seg))
  {
    var t := Strip(seg);
    if IsDigits(t) then [DigitsValue(t)] else []
  }

  /** The contributions of `segs`, one after the other (a list comprehension). */
  function Collect(f: string -> seq<nat>, segs: seq<string>): seq<nat> {
    if segs == [] then [] else f(segs[0]) + Collect(f, segs[1..])
  }

  lemma {:induction false} CollectAppend(f: string -> seq<nat>, a: seq<string>, b: seq<string>)
    ensures Collect(f, a + b) == Collect(f, a) + Collect(f, b)
    decreases |a|
  {
    if a == [] {
      assert a + b == b;
    } else {
      assert (a + b)[0] == a[0];
      assert (a + b)[1..] == a[1..] + b;
      CollectAppend(f, a[1..], b);
    }
  }

  /**
    `get_admin_list`: the ids of the segments of `admin_ids.split(",")`,
    in order; a malformed segment is dropped, never an error.
  */
  function AdminList(adminIds: string): (r: seq<int>)
    ensures |r| <= |Split(adminIds, ',')|
    ensures forall k :: 0 <= k < |r| ==> r[k] >= 0
  {
    var ids := Collect(SegmentId, Split(adminIds, ','));
    CollectLength(Split(adminIds, ','));
    ids
  }

  lemma {:induction false} CollectLength(segs: seq<string>)
    ensures |Collect(SegmentId, segs)| <= |segs|
    decreases |segs|
  {
    if segs != [] {
      CollectLength(segs[1..]);
    }
  }

  /** Every listed id is the number of some segment. */
  lemma {:induction false} CollectFrom(segs: seq<string>, x: int)
    requires x in Collect(SegmentId, segs)
    ensures exists k :: 0 <= k < |segs| && IsDigits(Strip(segs[k])) && DigitsValue(Strip(segs[k])) == x
    decreases |segs|
  {
    if x !in SegmentId(segs[0]) {
      assert x in Collect(SegmentId, segs[1..]);
      CollectFrom(segs[1..], x);
      var k :| 0 <= k < |segs[1..]| && IsDigits(Strip(segs[1..][k])) && DigitsValue(Strip(segs[1..][k])) == x;
      assert segs[k + 1] == segs[1..][k];
    }
  }

  /** Segments that read the same once stripped give the same ids. */
  lemma {:induction false} CollectStripped(a: seq<string>, b: seq<string>)
    requires |a| == |b|
    requires forall k :: 0 <= k < |a| ==> Strip(a[k]) == Strip(b[k])
    ensures Collect(SegmentId, a) == Collect(SegmentId, b)
    decreases |a|
  {
    if a != [] {
      CollectStripped(a[1..], b[1..]);
    }
  }

  /** Segments whose stripped forms are the numerals of `ids` give back `ids`. */
  lemma {:induction false} CollectNumerals(segs: seq<string>, ids: seq<nat>)
    requires |segs| == |ids|
    requires forall k :: 0 <= k < |segs| ==> Strip(segs[k]) == ShowNat(ids[k])
    ensures Collect(SegmentId, segs) == ids
    decreases |segs|
  {
    if segs != [] {
      ShowNatValue(ids[0]);
      CollectNumerals(segs[1..], ids[1..]);
      assert ids == [ids[0]] + ids[1..];
    }
  }

  /** Every listed id is the number of one of the comma-separated segments. */
  lemma AdminListSound(adminIds: string, x: int)
    requires x in AdminList(adminIds)
    ensures var segs := Split(adminIds, ',');
      exists k :: 0 <= k < |segs| && IsDigits(Strip(segs[k])) && DigitsValue(Strip(segs[k])) == x
  {
    var segs := Split(adminIds, ',');
    assert x in Collect(SegmentId, segs);
    CollectFrom(segs, x);
    var k :| 0 <= k < |segs| && IsDigits(Strip(segs[k])) && DigitsValue(Strip(segs[k])) == x;
    assert Split(adminIds, ',')[k] == segs[k];
  }

  /** Every segment that is a numeral once stripped has its number listed. */
  lemma {:induction false} CollectTo(segs: seq<string>, k: nat)
    requires k < |segs| && IsDigits(Strip(segs[k]))
    ensures DigitsValue(Strip(segs[k])) in Collect(SegmentId, segs)
    decreases |segs|
  {
    if k > 0 {
      assert segs[1..][k - 1] == segs[k];
      CollectTo(segs[1..], k - 1);
    }
  }

  /**
    An id is listed exactly when one of the comma-separated segments,
    stripped, is all digits and spells it.
  */
  lemma AdminListHas(adminIds: string, x: int)
    ensures var segs := Split(adminIds, ',');
      x in AdminList(adminIds) <==>
      exists k :: 0 <= k < |segs| && IsDigits(Strip(segs[k])) && DigitsValue(Strip(segs[k])) == x
  {
    var segs := Split(adminIds, ',');
    if x in AdminList(adminIds) {
      AdminListSound(adminIds, x);
    }
    if exists k :: 0 <= k < |segs| && IsDigits(Strip(segs[k])) && DigitsValue(Strip(segs[k])) == x {
      var k :| 0 <= k < |segs| && IsDigits(Strip(segs[k])) && DigitsValue(Strip(segs[k])) == x;
      CollectTo(segs, k);
    }
  }

  /**
    Any comma-free segments, joined by commas, read back as the
    contributions of those segments, one after the other: padded numerals,
    leading zeros and junk segments included.
  */
  lemma AdminListOfJoin(segs: seq<string>)
    requires |segs| > 0
    requires forall k :: 0 <= k < |segs| ==> ',' !in segs[k]
    ensures AdminList(Join(segs, ',')) == Collect(SegmentId, segs)
  {
    SplitJoin(segs, ',');
  }

  /**
    Round trip: ids written as numerals, each with any whitespace around it,
    joined by commas, read back as exactly that list, in order.
  */
  lemma AdminListRoundTrip(segs: seq<string>, ids: seq<nat>)
    requires |segs| == |ids| > 0
    requires forall k :: 0 <= k < |segs| ==> ',' !in segs[k] && Strip(segs[k]) == ShowNat(ids[k])
    ensures AdminList(Join(segs, ',')) == ids
  {
    SplitJoin(segs, ',');
    CollectNumerals(segs, ids);
  }

  /** Spaces around the segments do not affect the result. */
  lemma AdminListIgnoresSpaces(s: string, t: string)
    requires |Split(s, ',')| == |Split(t, ',')|
    requires forall k :: 0 <= k < |Split(s, ',')| ==> Strip(Split(s, ',')[k]) == Strip(Split(t, ',')[k])
    ensures AdminList(s) == AdminList(t)
  {
    CollectStripped(Split(s, ','), Split(t, ','));
  }

  /** A segment that contributes nothing can be left out. */
  lemma CollectSkip(f: string -> seq<nat>, before: seq<string>, junk: string, after: seq<string>)
    requires f(junk) == []
    ensures Collect(f, before + [junk] + after) == Collect(f, before + after)
  {
    assert Collect(f, [junk]) == [] by {
      assert [junk][0] == junk && [junk][1..] == [];
    }
    CollectAppend(f, before + [junk], after);
    CollectAppend(f, before, [junk]);
    CollectAppend(f, before, after);
  }

  /**
    A segment that is not a numeral once stripped (empty, signed, a word)
    is skipped: the list reads as if it were not there.
  */
  lemma AdminListSkips(before: seq<string>, junk: string, after: seq<string>)
    requires |before + after| > 0
    requires forall k :: 0 <= k < |before + after| ==> ',' !in (before + after)[k]
    requires ',' !in junk && !IsDigits(Strip(junk))
    ensures AdminList(Join(before + [junk] + after, ',')) == AdminList(Join(before + after, ','))
  {
    var with := before + [junk] + after;
    assert forall k :: 0 <= k < |with| ==> ',' !in with[k] by {
      forall k | 0 <= k < |with| ensures ',' !in with[k] {
        if k < |before| { assert with[k] == (before + after)[k]; }
        else if k > |before| { assert with[k] == (before + after)[k - 1]; }
      }
    }
    SplitJoin(with, ',');
    SplitJoin(before + after, ',');
    CollectSkip(SegmentId, before, junk, after);
  }
}
