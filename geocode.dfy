/** The two request handlers: a single address, and a batch of addresses
    whose lookups are issued together and whose successful rows are printed
    in input order. The database lookup is a parameter. */
module Geocoding {
  import opened Common
  import opened RequestOptions

  /** An `f64` coordinate, kept as its bit pattern: nothing here computes with it. */
  datatype F64 = F64(bits: bv64)

  /** `GeocodeOutput`: one candidate the database returns for an address. */
  datatype GeocodeOutput = GeocodeOutput(rating: Option<i32>, lon: Option<F64>, lat: Option<F64>)

  /** `GeocodeBatchOutput`: one candidate, tagged with the address it answers. */
  datatype GeocodeBatchOutput =
    GeocodeBatchOutput(address: string, rating: Option<i32>, lon: Option<F64>, lat: Option<F64>)

  /** The outcome of one `geocode_query` call. */
  type Lookup = Result<seq<GeocodeOutput>, DbError>

  /** `geocode_query`: the database's answer for an address and a result limit. */
  type Query = (string, i32) -> Lookup

  /** The warning logged for one failed lookup. */
  datatype Warning = Warning(address: string, error: DbError)

  /** `row` is the candidate `rec` tagged with `address`, its fields copied unchanged. */
  predicate CopiedFrom(row: GeocodeBatchOutput, address: string, rec: GeocodeOutput) {
    && row.address == address
    && row.rating == rec.rating
    && row.lon == rec.lon
    && row.lat == rec.lat
  }

  /** The lookups of a batch, one per address, all with the same limit. */
  function Lookups(addresses: seq<string>, results: i32, query: Query): (ls: seq<Lookup>)
    ensures |ls| == |addresses|
  {
    seq(|addresses|, i requires 0 <= i < |addresses| => query(addresses[i], results))
  }

  /** The number of rows a lookup contributes to the batch output. */
  function Count(l: Lookup): nat {
    if l.Ok? then |l.value| else 0
  }

  /** The number of rows a sequence of lookups contributes. `Total(ls[..i])`
      is the position, in the batch output, of the first row of lookup `i`. */
  function Total(ls: seq<Lookup>): nat
    decreases |ls|
  {
    if |ls| == 0 then 0 else Total(ls[..|ls| - 1]) + Count(ls[|ls| - 1])
  }

  /** The `map` that tags each record of a lookup with its address. */
  function Rows(address: string, l: Lookup): (rows: seq<GeocodeBatchOutput>)
    ensures |rows| == Count(l)
  {
    match l
    case Err(_) => []
    case Ok(recs) =>
      seq(|recs|, k requires 0 <= k < |recs| =>
        GeocodeBatchOutput(address, recs[k].rating, recs[k].lon, recs[k].lat))
  }

  /** The `zip`/`filter_map`/`flatten` chain of `geocode_batch`: the rows of
      every successful lookup, lookup after lookup. */
  function Successes(ls: seq<Lookup>, addresses: seq<string>): (rows: seq<GeocodeBatchOutput>)
    requires |ls| == |addresses|
    ensures |rows| == Total(ls)
    decreases |ls|
  {
    if |ls| == 0 then []
    else
      var n := |ls| - 1;
      Successes(ls[..n], addresses[..n]) + Rows(addresses[n], ls[n])
  }

  /** The indices whose lookup failed, in input order: the addresses the
      `filter(is_err)` pass warns about. */
  function FailedIndices(ls: seq<Lookup>): (fs: seq<int>)
    ensures forall j :: 0 <= j < |fs| ==> 0 <= fs[j] < |ls|
    ensures forall i :: i in fs <==> 0 <= i < |ls| && ls[i].Err?
    ensures forall j, k :: 0 <= j < k < |fs| ==> fs[j] < fs[k]
    decreases |ls|
  {
    if |ls| == 0 then []
    else
      var n := |ls| - 1;
      FailedIndices(ls[..n]) + (if ls[n].Err? then [n] else [])
  }

  /** The warnings logged for a batch, in input order. */
  function Warnings(ls: seq<Lookup>, addresses: seq<string>): seq<Warning>
    requires |ls| == |addresses|
  {
    var fs := FailedIndices(ls);
    seq(|fs|, j requires 0 <= j < |fs| => Warning(addresses[fs[j]], ls[fs[j]].error))
  }

  /** `w` is the warning for the failed lookup at index `i`. */
  predicate WarnedAbout(ls: seq<Lookup>, addresses: seq<string>, i: int, w: Warning)
    requires |ls| == |addresses|
  {
    0 <= i < |ls| && ls[i].Err? && w == Warning(addresses[i], ls[i].error)
  }

  /** Every failed lookup is warned about with its own address and error
      (the converse is `WarningSource`). */
  lemma {:induction false} WarningsExact(ls: seq<Lookup>, addresses: seq<string>)
    requires |ls| == |addresses|
    ensures forall i :: 0 <= i < |ls| && ls[i].Err? ==>
      exists j :: 0 <= j < |Warnings(ls, addresses)| &&
        Warnings(ls, addresses)[j] == Warning(addresses[i], ls[i].error)
  {
    var fs := FailedIndices(ls);
    var w := Warnings(ls, addresses);
    forall i | 0 <= i < |ls| && ls[i].Err?
      ensures exists j :: 0 <= j < |w| && w[j] == Warning(addresses[i], ls[i].error)
    {
      assert i in fs;
      var j :| 0 <= j < |fs| && fs[j] == i;
      assert w[j] == Warning(addresses[i], ls[i].error);
    }
  }

  /** Every warning is about a failed lookup: the one at index `i`. */
  lemma {:induction false} WarningSource(ls: seq<Lookup>, addresses: seq<string>, j: nat) returns (i: int)
    requires |ls| == |addresses| && j < |Warnings(ls, addresses)|
    ensures WarnedAbout(ls, addresses, i, Warnings(ls, addresses)[j])
    ensures j < |FailedIndices(ls)| && i == FailedIndices(ls)[j]
  {
    var fs := FailedIndices(ls);
    i := fs[j];
    assert i in fs;
  }

  /** The warnings follow input order: warning `j` is about failed lookup
      `FailedIndices(ls)[j]`, and those indices increase. */
  lemma {:induction false} WarningsInOrder(ls: seq<Lookup>, addresses: seq<string>, j: nat, j': nat)
    requires |ls| == |addresses| && j < j' < |Warnings(ls, addresses)|
    ensures var fs := FailedIndices(ls);
      && j' < |fs| && fs[j] < fs[j']
      && Warnings(ls, addresses)[j] == Warning(addresses[fs[j]], ls[fs[j]].error)
      && Warnings(ls, addresses)[j'] == Warning(addresses[fs[j']], ls[fs[j']].error)
  {
  }

  /** Extending a prefix by one lookup adds that lookup's row count. */
  lemma TotalStep(ls: seq<Lookup>, i: nat)
    requires i < |ls|
    ensures Total(ls[..i + 1]) == Total(ls[..i]) + Count(ls[i])
  {
    assert ls[..i + 1][..i] == ls[..i];
  }

  /** The rows of lookup `i` start where those of every earlier lookup end:
      rows of an earlier address precede rows of a later one. */
  lemma {:induction false} OffsetsOrdered(ls: seq<Lookup>, i: nat, j: nat)
    requires i < j <= |ls|
    ensures Total(ls[..i]) + Count(ls[i]) <= Total(ls[..j])
    decreases j
  {
    TotalStep(ls, i);
    if j > i + 1 {
      OffsetsOrdered(ls, i, j - 1);
      TotalStep(ls, j - 1);
    }
  }

  /** Every row of an earlier address comes before every row of a later one. */
  lemma {:induction false} RowsOrdered(ls: seq<Lookup>, i: nat, k: nat, j: nat, k2: nat)
    requires i < j < |ls| && ls[i].Ok? && ls[j].Ok?
    requires k < |ls[i].value| && k2 < |ls[j].value|
    ensures Total(ls[..i]) + k < Total(ls[..j]) + k2
  {
    OffsetsOrdered(ls, i, j);
  }

  /** Record `k` of successful lookup `i` sits at position `Total(ls[..i]) + k`
      of the batch output, tagged with address `i`: each address's rows are
      contiguous and keep the lookup's record order. */
  lemma {:induction false} SuccessesAt(ls: seq<Lookup>, addresses: seq<string>, i: nat, k: nat)
    requires |ls| == |addresses|
    requires i < |ls| && ls[i].Ok? && k < |ls[i].value|
    ensures Total(ls[..i]) + k < |Successes(ls, addresses)|
    ensures CopiedFrom(Successes(ls, addresses)[Total(ls[..i]) + k], addresses[i], ls[i].value[k])
    decreases |ls|
  {
    var n := |ls| - 1;
    var pre, rest := ls[..n], addresses[..n];
    if i == n {
      assert ls[..i] == pre;
    } else {
      SuccessesAt(pre, rest, i, k);
      assert pre[..i] == ls[..i];
      OffsetsOrdered(ls, i, n);
    }
  }

  /** Every row of the batch output comes from some record `k` of some
      successful lookup `i`, and carries that lookup's address. */
  lemma {:induction false} SuccessesOrigin(ls: seq<Lookup>, addresses: seq<string>, j: nat)
    returns (i: nat, k: nat)
    requires |ls| == |addresses|
    requires j < |Successes(ls, addresses)|
    ensures i < |ls| && ls[i].Ok? && k < |ls[i].value|
    ensures j == Total(ls[..i]) + k
    ensures CopiedFrom(Successes(ls, addresses)[j], addresses[i], ls[i].value[k])
    decreases |ls|
  {
    var n := |ls| - 1;
    var pre, rest := ls[..n], addresses[..n];
    var p := Successes(pre, rest);
    if j < |p| {
      i, k := SuccessesOrigin(pre, rest, j);
      assert pre[..i] == ls[..i];
    } else {
      i, k := n, j - |p|;
      assert ls[..n] == pre;
    }
  }

  /** A position of the batch output has only one origin. */
  lemma OriginUnique(ls: seq<Lookup>, i: nat, k: nat, i': nat, k': nat)
    requires i < |ls| && k < Count(ls[i])
    requires i' < |ls| && k' < Count(ls[i'])
    requires Total(ls[..i]) + k == Total(ls[..i']) + k'
    ensures i == i' && k == k'
  {
    if i < i' {
      OffsetsOrdered(ls, i, i');
    } else if i' < i {
      OffsetsOrdered(ls, i', i);
    }
  }

  /** The output of a batch is the output of its first part followed by that of the rest. */
  lemma {:induction false} SuccessesAppend(ls1: seq<Lookup>, as1: seq<string>, ls2: seq<Lookup>, as2: seq<string>)
    requires |ls1| == |as1| && |ls2| == |as2|
    ensures Successes(ls1 + ls2, as1 + as2) == Successes(ls1, as1) + Successes(ls2, as2)
    decreases |ls2|
  {
    if |ls2| == 0 {
      assert ls1 + ls2 == ls1 && as1 + as2 == as1;
    } else {
      var n := |ls2| - 1;
      var m := |ls1| + n;
      var ls, addresses := ls1 + ls2, as1 + as2;
      assert ls[..m] == ls1 + ls2[..n];
      assert addresses[..m] == as1 + as2[..n];
      assert ls[m] == ls2[n] && addresses[m] == as2[n];
      var last := Rows(as2[n], ls2[n]);
      calc {
        Successes(ls, addresses);
        Successes(ls[..m], addresses[..m]) + last;
        { SuccessesAppend(ls1, as1, ls2[..n], as2[..n]); }
        Successes(ls1, as1) + Successes(ls2[..n], as2[..n]) + last;
        Successes(ls1, as1) + (Successes(ls2[..n], as2[..n]) + last);
      }
    }
  }

  /** A batch of one lookup without rows prints no rows. */
  lemma NoRowsAlone(l: Lookup, address: string)
    requires Count(l) == 0
    ensures Successes([l], [address]) == []
  {
    assert [l][..0] == [] && [address][..0] == [];
  }

  /** A lookup that contributes no rows leaves the batch output as if its
      address had not been in the batch at all. */
  lemma {:induction false} DropLookup(ls: seq<Lookup>, addresses: seq<string>, i: nat)
    requires |ls| == |addresses| && i < |ls| && Count(ls[i]) == 0
    ensures Successes(ls, addresses) ==
      Successes(ls[..i] + ls[i + 1..], addresses[..i] + addresses[i + 1..])
  {
    assert ls == ls[..i] + [ls[i]] + ls[i + 1..];
    assert addresses == addresses[..i] + [addresses[i]] + addresses[i + 1..];
    DropMiddle(ls[..i], addresses[..i], ls[i], addresses[i], ls[i + 1..], addresses[i + 1..]);
  }

  /** Removing a row-less lookup from between two parts of a batch leaves its rows unchanged. */
  lemma {:induction false} DropMiddle(la: seq<Lookup>, aa: seq<string>, l: Lookup, a: string, lb: seq<Lookup>, ab: seq<string>)
    requires |la| == |aa| && |lb| == |ab| && Count(l) == 0
    ensures Successes(la + [l] + lb, aa + [a] + ab) == Successes(la + lb, aa + ab)
  {
    var front := Successes(la + [l], aa + [a]);
    assert front == Successes(la, aa) by {
      SuccessesAppend(la, aa, [l], [a]);
      NoRowsAlone(l, a);
    }
    SuccessesAppend(la + [l], aa + [a], lb, ab);
    SuccessesAppend(la, aa, lb, ab);
  }

  /** A failed lookup is warned about and contributes no rows. */
  lemma {:induction false} FailedLookupDropped(ls: seq<Lookup>, addresses: seq<string>, i: nat)
    requires |ls| == |addresses| && i < |ls| && ls[i].Err?
    ensures i in FailedIndices(ls)
    ensures Successes(ls, addresses) ==
      Successes(ls[..i] + ls[i + 1..], addresses[..i] + addresses[i + 1..])
  {
    DropLookup(ls, addresses, i);
  }

  /** A lookup that succeeds with no candidates is not warned about and
      contributes no rows: its address is silently absent from the output. */
  lemma {:induction false} EmptyLookupSilentlyAbsent(ls: seq<Lookup>, addresses: seq<string>, i: nat)
    requires |ls| == |addresses| && i < |ls| && ls[i] == Ok([])
    ensures i !in FailedIndices(ls)
    ensures Successes(ls, addresses) ==
      Successes(ls[..i] + ls[i + 1..], addresses[..i] + addresses[i + 1..])
  {
    DropLookup(ls, addresses, i);
  }

  /** Three addresses, the middle one failing: only the rows of the first and
      the third are printed, in that order, and only the middle one is warned about. */
  lemma BatchScenario(a: seq<GeocodeOutput>, c: seq<GeocodeOutput>, e: DbError)
    ensures Successes([Ok(a), Err(e), Ok(c)], ["1 Main St", "", "2 Oak Ave"]) ==
      Rows("1 Main St", Ok(a)) + Rows("2 Oak Ave", Ok(c))
    ensures FailedIndices([Ok(a), Err(e), Ok(c)]) == [1]
  {
    var ls: seq<Lookup> := [Ok(a), Err(e), Ok(c)];
    var addresses := ["1 Main St", "", "2 Oak Ave"];
    var ls2, as2 := ls[..2], addresses[..2];
    var ls1, as1 := ls2[..1], as2[..1];
    assert ls2 == [Ok(a), Err(e)] && as2 == ["1 Main St", ""];
    assert ls1 == [Ok(a)] && as1 == ["1 Main St"];
    assert ls1[..0] == [] && as1[..0] == [];
    assert Successes(ls1, as1) == Rows("1 Main St", Ok(a));
    assert Successes(ls2, as2) == Rows("1 Main St", Ok(a));
    assert FailedIndices(ls1) == [];
    assert FailedIndices(ls2) == [1];
  }

  /** The `for` loop that pushes one lookup per address, with the merged
      limit, onto the ordered futures queue; collecting the queue yields the
      outcomes in input order. */
  method Dispatch(addresses: seq<string>, results: i32, query: Query) returns (ls: seq<Lookup>)
    ensures |ls| == |addresses|
    ensures forall i :: 0 <= i < |addresses| ==> ls[i] == query(addresses[i], results)
  {
    ls := [];
    for i := 0 to |addresses|
      invariant |ls| == i
      invariant forall j :: 0 <= j < i ==> ls[j] == query(addresses[j], results)
    {
      ls := ls + [query(addresses[i], results)];
    }
  }

  /** `geocode`: one lookup with the merged limit. A failed lookup is the
      handler's error, an empty answer is "No results found", and any other
      answer is printed exactly as returned. */
  method Geocode(opts: OptionsOpt, address: string, query: Query, c: Codec<GeocodeOutput>)
    returns (r: Result<string, AppError>)
    ensures var l := query(address, Merge(opts).results);
      && (l.Err? ==> r == Err(Db(l.error)))
      && (r == Err(NoResultsFound) <==> l == Ok([]))
      && (l.Ok? && l.value != [] ==> r == Printed(Merge(opts).format, l.value, c))
  {
    var o := Merge(opts);
    var l := query(address, o.results);
    if l.Err? {
      return Err(Db(l.error));
    }
    if |l.value| == 0 {
      return Err(NoResultsFound);
    }
    r := Print(o.format, l.value, c);
  }

  /** `geocode_batch`: one lookup per address with the merged limit, a
      warning per failed lookup, and the successful rows printed in the
      merged format. Failed lookups never make the handler fail: only the
      encoder can. */
  method GeocodeBatch(opts: OptionsOpt, addresses: seq<string>, query: Query, c: Codec<GeocodeBatchOutput>)
    returns (r: Result<string, AppError>, warnings: seq<Warning>)
    ensures var ls := Lookups(addresses, Merge(opts).results, query);
      && r == Printed(Merge(opts).format, Successes(ls, addresses), c)
      && warnings == Warnings(ls, addresses)
    ensures r.Err? ==> r.error.Encoding?
  {
    var o := Merge(opts);
    var ls := Dispatch(addresses, o.results, query);
    assert ls == Lookups(addresses, o.results, query);
    warnings := Warnings(ls, addresses);
    var successes := Successes(ls, addresses);
    r := Print(o.format, successes, c);
  }
}
