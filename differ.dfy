/**
 * `diff(event1, event2)`: the keys of a fixed allowlist whose values differ between an
 * Outlook event and a second mapping. The first mapping is indexed (a missing key raises
 * KeyError), the second is read with `.get` (a missing key reads as None).
 */
module EventDiffer {
  import opened Wrappers
  import opened PyValues

  /** The compared keys, in the order the result lists them; `body` is deliberately absent. */
  const DiffKeys: seq<string> := [
    "subject", "bodyPreview", "allowNewTimeProposals", "isAllDay", "categories", "showAs",
    "responseRequested", "isReminderOn", "isCancelled", "start", "end", "location", "attendees"]

  /** `event1[k] != event2.get(k)`. */
  predicate Differs(e1: Mapping, e2: Mapping, k: string)
    requires k in e1
  {
    !Eq(e1[k], GetOrNull(e2, k))
  }

  /** The comprehension over `keys`, evaluated left to right. */
  function DiffOver(e1: Mapping, e2: Mapping, keys: seq<string>): (r: Result<seq<string>, Exc>)
    ensures r.Ok? <==> forall k :: k in keys ==> k in e1
    ensures r.Err? ==>
      exists i :: 0 <= i < |keys| && keys[i] !in e1 && r.error == KeyError(keys[i]) && (forall j :: 0 <= j < i ==> keys[j] in e1)
    ensures r.Ok? ==> forall k :: k in r.value <==> k in keys && Differs(e1, e2, k)
    ensures r.Ok? ==> |r.value| <= |keys|
    ensures r.Ok? && (forall k :: k in keys ==> !Differs(e1, e2, k)) ==> r.value == []
  {
    if keys == [] then Ok([])
    else if keys[0] !in e1 then Err(KeyError(keys[0]))
    else
      match DiffOver(e1, e2, keys[1..])
      case Err(e) =>
        var i :| 0 <= i < |keys[1..]| && keys[1..][i] !in e1 && e == KeyError(keys[1..][i])
          && forall j :: 0 <= j < i ==> keys[1..][j] in e1;
        assert keys[i + 1] !in e1;
        Err(e)
      case Ok(rest) => Ok(if Differs(e1, e2, keys[0]) then [keys[0]] + rest else rest)
  }

  /** `diff(event1, event2)`. */
  function Diff(e1: Mapping, e2: Mapping): (r: Result<seq<string>, Exc>)
    ensures r.Ok? <==> forall k :: k in DiffKeys ==> k in e1
    ensures r.Ok? ==> forall k :: k in r.value <==> k in DiffKeys && Differs(e1, e2, k)
    ensures r.Ok? ==> "body" !in r.value
    ensures r.Ok? && (forall k :: k in DiffKeys ==> !Differs(e1, e2, k)) ==> r.value == []
  {
    DiffOver(e1, e2, DiffKeys)
  }

  /** `r` is `keys` with some elements left out: a subsequence, in the same order. */
  predicate Subsequence(r: seq<string>, keys: seq<string>)
    decreases keys
  {
    if keys == [] then r == []
    else (r != [] && r[0] == keys[0] && Subsequence(r[1..], keys[1..])) || Subsequence(r, keys[1..])
  }

  /** The differing keys come out in allowlist order. */
  lemma {:induction false} DiffOverInOrder(e1: Mapping, e2: Mapping, keys: seq<string>)
    requires DiffOver(e1, e2, keys).Ok?
    ensures Subsequence(DiffOver(e1, e2, keys).value, keys)
  {
    if keys != [] {
      DiffOverInOrder(e1, e2, keys[1..]);
      var rest := DiffOver(e1, e2, keys[1..]).value;
      if Differs(e1, e2, keys[0]) {
        assert ([keys[0]] + rest)[1..] == rest;
      }
    }
  }

  /** `diff` lists the differing allowlisted keys in allowlist order. */
  lemma DiffInOrder(e1: Mapping, e2: Mapping)
    requires Diff(e1, e2).Ok?
    ensures Subsequence(Diff(e1, e2).value, DiffKeys)
  {
    DiffOverInOrder(e1, e2, DiffKeys);
  }

  /** An event compared with itself has no differing key. */
  lemma DiffReflexive(e: Mapping)
    requires forall k :: k in DiffKeys ==> k in e
    ensures Diff(e, e) == Ok([])
  {
    forall k | k in DiffKeys
      ensures !Differs(e, e, k)
    {
      EqReflexive(e[k]);
    }
  }

  /**
   * Against a mapping that has none of the allowlisted keys (a raw work order), `diff`
   * reports every key whose event value is not None.
   */
  lemma DiffAgainstForeignMapping(e1: Mapping, e2: Mapping)
    requires forall k :: k in DiffKeys ==> k in e1 && k !in e2
    ensures forall k :: k in Diff(e1, e2).value <==> k in DiffKeys && e1[k] != VNull
  {
  }
}
