/**
 * The history log: entries are pushed at the front and the log keeps at
 * most twenty; a recalled entry yields the text between its first " = "
 * separator and the next one (or the end).
 */
module History {
  import opened Numbers

  const Capacity: nat := 20

  /** `[entry, ...log.slice(0, 19)]` */
  function Push(log: seq<string>, entry: string): (r: seq<string>)
    ensures 0 < |r| <= Capacity
    ensures r[0] == entry
    ensures r[1..] <= log
    ensures |r| == if |log| < Capacity then |log| + 1 else Capacity
  {
    [entry] + log[..if |log| < Capacity - 1 then |log| else Capacity - 1]
  }

  function Reversed(s: seq<string>): (r: seq<string>)
    ensures |r| == |s|
  {
    if s == [] then [] else Reversed(s[1..]) + [s[0]]
  }

  /** The log after pushing `entries` one after the other. */
  function PushAll(log: seq<string>, entries: seq<string>): seq<string>
    decreases |entries|
  {
    if entries == [] then log
    else PushAll(Push(log, entries[0]), entries[1..])
  }

  function Min(a: nat, b: nat): nat { if a < b then a else b }

  /**
   * After any run of pushes the log holds the most recent twenty entries
   * ever pushed or kept, most recent first.
   */
  lemma {:induction false} PushAllKeepsMostRecent(log: seq<string>, entries: seq<string>)
    requires |log| <= Capacity
    ensures PushAll(log, entries) ==
            (Reversed(entries) + log)[..Min(Capacity, |entries| + |log|)]
    decreases |entries|
  {
    if entries != [] {
      var e, rest := entries[0], entries[1..];
      var pushed := Push(log, e);
      var k, n := Min(Capacity, 1 + |log|), Min(Capacity, |entries| + |log|);
      assert pushed == ([e] + log)[..k];
      assert entries == [e] + rest;
      ReversedCons(e, rest);
      calc {
        PushAll(log, entries);
        PushAll(pushed, rest);
        { PushAllKeepsMostRecent(pushed, rest); }
        (Reversed(rest) + ([e] + log)[..k])[..n];
        { PrefixOfAppend(Reversed(rest), [e] + log, k, n); }
        (Reversed(rest) + ([e] + log))[..n];
        { assert Reversed(rest) + ([e] + log) == Reversed(entries) + log; }
        (Reversed(entries) + log)[..n];
      }
    }
  }

  lemma ReversedCons(e: string, rest: seq<string>)
    ensures Reversed([e] + rest) == Reversed(rest) + [e]
  {
    assert ([e] + rest)[1..] == rest;
  }

  /** Cutting the tail first does not change a short enough prefix. */
  lemma PrefixOfAppend(a: seq<string>, b: seq<string>, k: nat, n: nat)
    requires k <= |b| && n <= |a| + k
    ensures (a + b[..k])[..n] == (a + b)[..n]
  {
    assert forall i :: 0 <= i < n ==> (a + b[..k])[i] == (a + b)[i];
  }

  /** 25 pushes on an empty log leave the last twenty, newest first. */
  lemma TwentyFiveOperations(entries: seq<string>)
    requires |entries| == 25
    ensures |PushAll([], entries)| == Capacity
    ensures PushAll([], entries) == Reversed(entries[5..])
  {
    PushAllKeepsMostRecent([], entries);
    ReversedSplit(entries[..5], entries[5..]);
    assert entries == entries[..5] + entries[5..];
    assert (Reversed(entries) + [])[..20] == Reversed(entries[5..]);
  }

  lemma {:induction false} ReversedSplit(a: seq<string>, b: seq<string>)
    ensures Reversed(a + b) == Reversed(b) + Reversed(a)
    decreases |a|
  {
    if a != [] {
      assert (a + b)[1..] == a[1..] + b;
      ReversedSplit(a[1..], b);
    } else {
      assert a + b == b;
    }
  }

  /** The separator `split(' = ')` cuts on. */
  const Separator: string := " = "

  predicate SeparatorAt(s: string, i: int) {
    0 <= i && i + |Separator| <= |s| && s[i..i + |Separator|] == Separator
  }

  /** The first position at or after `from` where the separator starts. */
  function FindSeparator(s: string, from: nat): (r: Option<nat>)
    ensures r.Some? ==> from <= r.value && SeparatorAt(s, r.value)
    ensures r.Some? ==> forall j :: from <= j < r.value ==> !SeparatorAt(s, j)
    ensures r.None? ==> forall j :: from <= j ==> !SeparatorAt(s, j)
    decreases |s| - from
  {
    if from + |Separator| > |s| then None
    else if s[from..from + |Separator|] == Separator then Some(from)
    else FindSeparator(s, from + 1)
  }

  /**
   * `item.split(' = ')[1]`: the text between the first and the second
   * separator (or the end); None when there is no separator, where the
   * source reads `undefined`.
   */
  function SecondSegment(item: string): (r: Option<string>)
    ensures r.None? <==> forall i :: !SeparatorAt(item, i)
    ensures r.Some? ==>
              FindSeparator(item, 0).Some? &&
              var start := FindSeparator(item, 0).value + |Separator|;
              var end := start + |r.value|;
              end <= |item| && r.value == item[start..end] &&
              (forall j :: start <= j < end ==> !SeparatorAt(item, j)) &&
              (end == |item| || SeparatorAt(item, end))
  {
    match FindSeparator(item, 0)
    case None => None
    case Some(i) =>
      var start := i + |Separator|;
      match FindSeparator(item, start)
      case None => Some(item[start..])
      case Some(j) => Some(item[start..j])
  }

  /**
   * An entry written as `lhs + " = " + result`, with no '=' on either side,
   * recalls exactly `result`.
   */
  lemma RecallEntry(lhs: string, result: string)
    requires '=' !in lhs && '=' !in result
    ensures SecondSegment(lhs + Separator + result) == Some(result)
  {
    var item := lhs + Separator + result;
    var n := |lhs|;
    assert SeparatorAt(item, n) by {
      assert item[n..n + 3] == Separator;
    }
    forall j | 0 <= j < n ensures !SeparatorAt(item, j) {
      NoSeparatorBefore(lhs, result, j);
    }
    forall j | n + 3 <= j ensures !SeparatorAt(item, j) {
      if j + 3 <= |item| {
        assert item[j + 1] == result[j + 1 - n - 3];
      }
    }
    assert item[n + 3..] == result;
  }

  /**
   * With two separators the segment stops at the second one: the text after
   * the last separator is not what is recalled.
   */
  lemma TwoSeparators()
    ensures SecondSegment("a = b = c") == Some("b")
  {
    var item := "a = b = c";
    assert SeparatorAt(item, 1) by { assert item[1..4] == Separator; }
    assert !SeparatorAt(item, 0) by { assert item[0] != ' '; }
    assert FindSeparator(item, 0) == Some(1);
    assert SeparatorAt(item, 5) by { assert item[5..8] == Separator; }
    assert !SeparatorAt(item, 4) by { assert item[4] != ' '; }
    assert FindSeparator(item, 4) == Some(5);
    assert item[4..5] == "b";
  }

  lemma NoSeparatorBefore(lhs: string, result: string, j: int)
    requires '=' !in lhs && 0 <= j < |lhs|
    ensures !SeparatorAt(lhs + Separator + result, j)
  {
    var item := lhs + Separator + result;
    if j + 1 < |lhs| {
      assert item[j + 1] == lhs[j + 1];
    } else {
      assert item[j + 1] == ' ';
    }
  }
}
