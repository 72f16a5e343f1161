/**
 * `app/exceptions.py`: the end-of-run summary of the failures the sync recorded (one
 * count and one list of order labels per distinct message) and the timestamp of the
 * last line of the exception log.
 *
 * A failure is a pair (label, message). Python's dicts keep their keys in insertion
 * order, so a dict built by these loops is modelled as its key sequence and its map.
 */
module ExceptionReport {
  import opened Wrappers
  import opened PyText
  import opened PyValues

  /** No message occurs twice. */
  predicate NoDuplicates<M(==)>(ks: seq<M>) {
    forall i, j :: 0 <= i < j < |ks| ==> ks[i] != ks[j]
  }

  /** How many failures carry message `m`. */
  function Count<L, M(==)>(xs: seq<(L, M)>, m: M): nat
    decreases |xs|
  {
    if xs == [] then 0 else Count(xs[..|xs| - 1], m) + (if xs[|xs| - 1].1 == m then 1 else 0)
  }

  /** The labels of the failures that carry message `m`, in the order they were recorded. */
  function Group<L, M(==)>(xs: seq<(L, M)>, m: M): seq<L>
    decreases |xs|
  {
    if xs == [] then [] else Group(xs[..|xs| - 1], m) + (if xs[|xs| - 1].1 == m then [xs[|xs| - 1].0] else [])
  }

  /** The distinct messages, in the order each first occurs: the key order of both dicts. */
  function Distinct<L, M(==)>(xs: seq<(L, M)>): (r: seq<M>)
    ensures NoDuplicates(r)
    decreases |xs|
  {
    if xs == [] then []
    else
      var d := Distinct(xs[..|xs| - 1]);
      if xs[|xs| - 1].1 in d then d else d + [xs[|xs| - 1].1]
  }

  /** The labels of all failures, in order. */
  function Labels<L, M>(xs: seq<(L, M)>): (r: seq<L>)
    ensures |r| == |xs| && forall i :: 0 <= i < |xs| ==> r[i] == xs[i].0
    decreases |xs|
  {
    if xs == [] then [] else Labels(xs[..|xs| - 1]) + [xs[|xs| - 1].0]
  }

  /** The sum of the counts of the messages `ks`. */
  function Total<L, M(==)>(xs: seq<(L, M)>, ks: seq<M>): nat
    decreases |ks|
  {
    if ks == [] then 0 else Count(xs, ks[0]) + Total(xs, ks[1..])
  }

  /** The groups of the messages `ks`, one after the other. */
  function Flatten<L, M(==)>(xs: seq<(L, M)>, ks: seq<M>): seq<L>
    decreases |ks|
  {
    if ks == [] then [] else Group(xs, ks[0]) + Flatten(xs, ks[1..])
  }

  /** How often `m` occurs among `ks`. */
  function Occurrences<M(==)>(ks: seq<M>, m: M): nat
    decreases |ks|
  {
    if ks == [] then 0 else (if ks[0] == m then 1 else 0) + Occurrences(ks[1..], m)
  }

  /** `count_exceptions`: one count per distinct message, keyed in first-occurrence order. */
  method CountExceptions<L, M(==)>(exceptions: seq<(L, M)>) returns (keys: seq<M>, counts: map<M, nat>)
    ensures keys == Distinct(exceptions)
    ensures forall m :: m in counts <==> m in keys
    ensures forall m :: m in counts ==> counts[m] == Count(exceptions, m)
  {
    keys := [];
    counts := map[];
    for i := 0 to |exceptions|
      invariant keys == Distinct(exceptions[..i])
      invariant forall m :: m in counts <==> m in keys
      invariant forall m :: m in counts ==> counts[m] == Count(exceptions[..i], m)
    {
      assert exceptions[..i + 1][..i] == exceptions[..i];
      assert forall m :: Count(exceptions[..i + 1], m) == Count(exceptions[..i], m) + if exceptions[i].1 == m then 1 else 0;
      var exceptionType := exceptions[i].1;
      if exceptionType in counts {
        counts := counts[exceptionType := counts[exceptionType] + 1];
      } else {
        DistinctMembers(exceptions[..i], exceptionType);
        counts := counts[exceptionType := 1];
        keys := keys + [exceptionType];
      }
    }
    assert exceptions[..|exceptions|] == exceptions;
  }

  /**
   * `group_orders_by_exception`: the labels of each distinct message, keyed in
   * first-occurrence order; these are what it writes to the log, one line per key.
   */
  method GroupOrdersByException<L, M(==)>(exceptions: seq<(L, M)>) returns (keys: seq<M>, groups: map<M, seq<L>>)
    ensures keys == Distinct(exceptions)
    ensures forall m :: m in groups <==> m in keys
    ensures forall m :: m in groups ==> groups[m] == Group(exceptions, m)
  {
    keys := [];
    groups := map[];
    for i := 0 to |exceptions|
      invariant keys == Distinct(exceptions[..i])
      invariant forall m :: m in groups <==> m in keys
      invariant forall m :: m in groups ==> groups[m] == Group(exceptions[..i], m)
    {
      assert exceptions[..i + 1][..i] == exceptions[..i];
      assert forall m :: Group(exceptions[..i + 1], m) == Group(exceptions[..i], m) + if exceptions[i].1 == m then [exceptions[i].0] else [];
      var (orderNumber, exception) := exceptions[i];
      if exception in groups {
        groups := groups[exception := groups[exception] + [orderNumber]];
      } else {
        DistinctMembers(exceptions[..i], exception);
        GroupEmpty(exceptions[..i], exception);
        groups := groups[exception := [orderNumber]];
        keys := keys + [exception];
      }
    }
    assert exceptions[..|exceptions|] == exceptions;
  }

  /** A message is a key exactly when some failure carries it. */
  lemma {:induction false} DistinctMembers<L, M>(xs: seq<(L, M)>, m: M)
    ensures m in Distinct(xs) <==> Count(xs, m) > 0
    ensures m in Distinct(xs) <==> exists i :: 0 <= i < |xs| && xs[i].1 == m
    decreases |xs|
  {
    if xs != [] {
      var n := |xs| - 1;
      DistinctMembers(xs[..n], m);
      if xs[n].1 != m && m !in Distinct(xs) {
        forall i | 0 <= i < |xs| ensures xs[i].1 != m {
          if i < n { assert xs[..n][i] == xs[i]; }
        }
      }
      if m in Distinct(xs[..n]) {
        var i :| 0 <= i < n && xs[..n][i].1 == m;
        assert xs[i].1 == m;
      }
    }
  }

  /** Each group holds exactly as many labels as its message's count. */
  lemma {:induction false} GroupSize<L, M>(xs: seq<(L, M)>, m: M)
    ensures |Group(xs, m)| == Count(xs, m)
    decreases |xs|
  {
    if xs != [] {
      GroupSize(xs[..|xs| - 1], m);
    }
  }

  /** Every label of a group comes from a failure with that message, and the group keeps their order. */
  lemma {:induction false} GroupMembers<L, M>(xs: seq<(L, M)>, m: M, k: nat)
    requires k < |Group(xs, m)|
    ensures exists i :: 0 <= i < |xs| && xs[i].1 == m && xs[i].0 == Group(xs, m)[k]
    decreases |xs|
  {
    var n := |xs| - 1;
    var g := Group(xs[..n], m);
    if k < |g| {
      GroupMembers(xs[..n], m, k);
      var i :| 0 <= i < n && xs[..n][i].1 == m && xs[..n][i].0 == g[k];
      assert xs[i] == xs[..n][i];
    } else {
      assert xs[n].1 == m && xs[n].0 == Group(xs, m)[k];
    }
  }

  lemma {:induction false} TotalSnoc<L, M>(xs: seq<(L, M)>, x: (L, M), ks: seq<M>)
    ensures Total(xs + [x], ks) == Total(xs, ks) + Occurrences(ks, x.1)
    decreases |ks|
  {
    assert (xs + [x])[..|xs|] == xs;
    if ks != [] {
      TotalSnoc(xs, x, ks[1..]);
    }
  }

  lemma {:induction false} TotalAppend<L, M>(xs: seq<(L, M)>, ks: seq<M>, m: M)
    ensures Total(xs, ks + [m]) == Total(xs, ks) + Count(xs, m)
    decreases |ks|
  {
    if ks == [] {
      assert [m][1..] == [];
    } else {
      assert (ks + [m])[1..] == ks[1..] + [m];
      TotalAppend(xs, ks[1..], m);
    }
  }

  lemma {:induction false} OccurrencesDistinct<M>(ks: seq<M>, m: M)
    requires NoDuplicates(ks)
    ensures Occurrences(ks, m) == if m in ks then 1 else 0
    decreases |ks|
  {
    if ks != [] {
      assert NoDuplicates(ks[1..]) by {
        forall i, j | 0 <= i < j < |ks| - 1 ensures ks[1..][i] != ks[1..][j] {
          assert ks[1..][i] == ks[i + 1] && ks[1..][j] == ks[j + 1];
        }
      }
      OccurrencesDistinct(ks[1..], m);
      if ks[0] == m {
        assert m !in ks[1..] by {
          forall j | 0 <= j < |ks| - 1 ensures ks[1..][j] != m {
            assert ks[1..][j] == ks[j + 1];
          }
        }
      }
    }
  }

  /** The counts `count_exceptions` reports add up to the number of failures. */
  lemma {:induction false} CountsAddUp<L, M>(xs: seq<(L, M)>)
    ensures Total(xs, Distinct(xs)) == |xs|
    decreases |xs|
  {
    if xs != [] {
      var n := |xs| - 1;
      var prefix, x := xs[..n], xs[n];
      assert xs == prefix + [x];
      var d := Distinct(prefix);
      CountsAddUp(prefix);
      TotalSnoc(prefix, x, d);
      OccurrencesDistinct(d, x.1);
      if x.1 !in d {
        TotalAppend(xs, d, x.1);
        DistinctMembers(prefix, x.1);
        assert Count(xs, x.1) == 1;
      }
    }
  }

  lemma {:induction false} FlattenSnoc<L, M>(xs: seq<(L, M)>, x: (L, M), ks: seq<M>)
    requires x.1 !in ks
    ensures Flatten(xs + [x], ks) == Flatten(xs, ks)
    decreases |ks|
  {
    assert (xs + [x])[..|xs|] == xs;
    if ks != [] {
      FlattenSnoc(xs, x, ks[1..]);
    }
  }

  lemma {:induction false} FlattenSnocMember<L, M>(xs: seq<(L, M)>, x: (L, M), ks: seq<M>)
    requires NoDuplicates(ks) && x.1 in ks
    ensures multiset(Flatten(xs + [x], ks)) == multiset(Flatten(xs, ks)) + multiset{x.0}
    decreases |ks|
  {
    assert (xs + [x])[..|xs|] == xs;
    assert NoDuplicates(ks[1..]) by {
      forall i, j | 0 <= i < j < |ks| - 1 ensures ks[1..][i] != ks[1..][j] {
        assert ks[1..][i] == ks[i + 1] && ks[1..][j] == ks[j + 1];
      }
    }
    if ks[0] == x.1 {
      assert x.1 !in ks[1..] by {
        forall j | 0 <= j < |ks| - 1 ensures ks[1..][j] != x.1 {
          assert ks[1..][j] == ks[j + 1];
        }
      }
      FlattenSnoc(xs, x, ks[1..]);
    } else {
      assert x.1 in ks[1..];
      FlattenSnocMember(xs, x, ks[1..]);
    }
  }

  lemma {:induction false} FlattenAppend<L, M>(xs: seq<(L, M)>, ks: seq<M>, m: M)
    ensures Flatten(xs, ks + [m]) == Flatten(xs, ks) + Group(xs, m)
    decreases |ks|
  {
    if ks == [] {
      assert [m][1..] == [];
    } else {
      assert (ks + [m])[1..] == ks[1..] + [m];
      FlattenAppend(xs, ks[1..], m);
    }
  }

  lemma {:induction false} GroupEmpty<L, M>(xs: seq<(L, M)>, m: M)
    requires Count(xs, m) == 0
    ensures Group(xs, m) == []
  {
    GroupSize(xs, m);
  }

  /** The logged groups, taken together, hold every recorded label once: a permutation of the labels. */
  lemma {:induction false} GroupsPartition<L, M>(xs: seq<(L, M)>)
    ensures multiset(Flatten(xs, Distinct(xs))) == multiset(Labels(xs))
    decreases |xs|
  {
    if xs != [] {
      var n := |xs| - 1;
      var prefix, x := xs[..n], xs[n];
      assert xs == prefix + [x];
      var d := Distinct(prefix);
      GroupsPartition(prefix);
      assert Labels(xs) == Labels(prefix) + [x.0];
      if x.1 in d {
        FlattenSnocMember(prefix, x, d);
      } else {
        FlattenSnoc(prefix, x, d);
        FlattenAppend(xs, d, x.1);
        DistinctMembers(prefix, x.1);
        GroupEmpty(prefix, x.1);
        assert Group(xs, x.1) == [x.0];
      }
    }
  }

  /** The separator between the fields of a log line (`%(asctime)s - %(levelname)s - %(message)s`). */
  const Separator: string := " - "

  const EmptyLogText: string := "Log file is empty"

  predicate SeparatorAt(s: string, k: nat) {
    k + |Separator| <= |s| && s[k..k + |Separator|] == Separator
  }

  /** The first position at or after `i` where the separator starts, or `|s|` if there is none. */
  function SeparatorFrom(s: string, i: nat): (j: nat)
    requires i <= |s|
    ensures i <= j <= |s|
    ensures j < |s| ==> SeparatorAt(s, j)
    ensures forall k :: i <= k < j ==> !SeparatorAt(s, k)
    decreases |s| - i
  {
    if i == |s| || SeparatorAt(s, i) then i else SeparatorFrom(s, i + 1)
  }

  /** `s.split(' - ')[0]`: the text before the first separator, or all of `s`. */
  function FirstField(s: string): (r: string)
    ensures |r| <= |s| && r == s[..|r|]
    ensures forall k :: 0 <= k < |r| ==> !SeparatorAt(s, k)
    ensures |r| < |s| ==> SeparatorAt(s, |r|)
  {
    s[..SeparatorFrom(s, 0)]
  }

  /** `get_last_log_time` on the lines of the log file: the timestamp field of the last line. */
  function LastLogTime(lines: seq<string>): (r: Result<string, Exc>)
    ensures lines == [] <==> r == Err(Raised(EmptyLogText))
    ensures r.Ok? ==> r.value == FirstField(Strip(lines[|lines| - 1]))
  {
    if lines == [] then Err(Raised(EmptyLogText)) else Ok(FirstField(Strip(lines[|lines| - 1])))
  }

  /** A line as the logger writes it, with its line break. */
  function LogLine(asctime: string, levelname: string, message: string): string {
    asctime + Separator + levelname + Separator + message + "\n"
  }

  /** The timestamp has no space before a dash, so no separator starts inside it. */
  predicate PlainTimestamp(t: string) {
    && |t| > 0 && !IsSpace(t[0])
    && forall i :: 0 <= i < |t| - 1 ==> !(t[i] == ' ' && t[i + 1] == '-')
  }

  /** No separator starts inside a plain timestamp, even with the separator after it. */
  lemma FirstFieldOf(asctime: string, rest: string)
    requires PlainTimestamp(asctime)
    ensures FirstField(asctime + Separator + rest) == asctime
  {
    var s := asctime + Separator + rest;
    var t := |asctime|;
    assert s[t..t + 3] == Separator;
    assert Separator[0] == ' ' && Separator[1] == '-';
    forall k | 0 <= k < t ensures !SeparatorAt(s, k) {
      assert s[k] == asctime[k];
      assert s[k..k + 3][0] == s[k] && s[k..k + 3][1] == s[k + 1];
      if k + 1 < t {
        assert s[k + 1] == asctime[k + 1];
      } else {
        assert s[k + 1] == ' ';
      }
    }
    assert SeparatorAt(s, t);
    assert |FirstField(s)| == t;
    assert s[..t] == asctime;
  }

  /** Stripping a log line keeps its start and at least the first separator. */
  lemma StripLogLine(asctime: string, levelname: string, message: string)
    requires PlainTimestamp(asctime)
    ensures |Strip(LogLine(asctime, levelname, message))| > |asctime| + |Separator|
    ensures var line := LogLine(asctime, levelname, message);
      Strip(line) == asctime + Separator + Strip(line)[|asctime| + |Separator|..]
  {
    var line := LogLine(asctime, levelname, message);
    var s := Strip(line);
    var u := |asctime| + |Separator| + |levelname| + 1;
    assert line[u] == '-';
    assert SpanEnd(line, 0) == 0;
    assert u < |s| && s == line[..|s|];
    assert s[..|asctime| + |Separator|] == asctime + Separator;
  }

  /** Text with no line break, as the file reads it back in text mode (`\n`, `\r`). */
  predicate SingleLine(s: string) {
    forall i :: 0 <= i < |s| ==> s[i] != '\n' && s[i] != '\r'
  }

  /** After a one-line record, the time read back is the timestamp of that record. */
  lemma LastLogTimeReadsBack(lines: seq<string>, asctime: string, levelname: string, message: string)
    requires PlainTimestamp(asctime)
    requires SingleLine(levelname + message)
    ensures LastLogTime(lines + [LogLine(asctime, levelname, message)]) == Ok(asctime)
  {
    var line := LogLine(asctime, levelname, message);
    assert (lines + [line])[|lines|] == line;
    StripLogLine(asctime, levelname, message);
    FirstFieldOf(asctime, Strip(line)[|asctime| + |Separator|..]);
  }

  /**
   * A record whose message spans lines ends the file with its last line, not with its
   * timestamp. A ValueError is recorded by its traceback text, so the count line logged
   * for it leaves " (Count: 1)" last, and that is what is read back.
   */
  lemma MultiLineRecordReadsBack(lines: seq<string>)
    ensures var file := lines + [
      "2024-05-01 08:00:00,000 - INFO - Exception: Traceback (most recent call last):\n",
      "ValueError: bad\n",
      " (Count: 1)\n"];
      LastLogTime(file) == Ok("(Count: 1)")
  {
    var last := " (Count: 1)\n";
    var c := "(Count: 1)";
    assert last[0] == ' ' && last[1] == '(' && last[10] == ')' && last[11] == '\n';
    assert SpanEnd(last, 0) == 1 by {
      assert SpanEnd(last, 1) == 1;
    }
    assert SpanStart(last, 1, |last|) == 11 by {
      assert SpanStart(last, 1, 11) == 11;
    }
    assert Strip(last) == c by {
      assert last[1..11] == c;
    }
    assert FirstField(c) == c by {
      assert '-' !in c;
      forall i | 0 <= i < |c| ensures !SeparatorAt(c, i) {
        if i + |Separator| <= |c| {
          assert c[i..i + |Separator|][1] == c[i + 1] != '-';
        }
      }
      assert SeparatorFrom(c, 0) == |c|;
    }
  }
}
