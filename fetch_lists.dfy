/**
 * What git-track's commands do to ONE remote's fetch list, as values:
 * the filter `rm` applies and the lines `ls` prints. Both decode every
 * entry they meet, so both stop with a panic at the first entry that is
 * not of the codec's shape.
 */
module FetchLists {
  import opened RefSpecCodec

  /** Every entry decodes without a panic. */
  predicate AllDecodable(fetch: seq<string>)
  {
    forall i :: 0 <= i < |fetch| ==> Deflate(fetch[i]).Ok?
  }

  /** The entry decodes to exactly `branch`. */
  predicate Matches(s: string, branch: string)
  {
    Deflate(s) == Ok(branch)
  }

  /** `sub` is `s` with some entries left out and the rest in order. */
  predicate Subsequence(sub: seq<string>, s: seq<string>)
    decreases |s|
  {
    if s == [] then
      sub == []
    else
      || (sub != [] && sub[0] == s[0] && Subsequence(sub[1..], s[1..]))
      || Subsequence(sub, s[1..])
  }

  /** The panic decoding `fetch` from the front runs into first, if any. */
  predicate FirstPanic(fetch: seq<string>, p: Panic)
  {
    exists i :: 0 <= i < |fetch| && Deflate(fetch[i]) == Err(p) && AllDecodable(fetch[..i])
  }

  lemma DecodableCons(fetch: seq<string>)
    requires fetch != []
    ensures AllDecodable(fetch) <==> Deflate(fetch[0]).Ok? && AllDecodable(fetch[1..])
  {
  }

  lemma FirstPanicCons(fetch: seq<string>, p: Panic)
    requires fetch != [] && Deflate(fetch[0]).Ok? && FirstPanic(fetch[1..], p)
    ensures FirstPanic(fetch, p)
  {
    var i :| 0 <= i < |fetch| - 1 && Deflate(fetch[1..][i]) == Err(p) && AllDecodable(fetch[1..][..i]);
    assert fetch[..i + 1][1..] == fetch[1..][..i];
    DecodableCons(fetch[..i + 1]);
  }

  // ---------------------------------------------------------------------
  // rm: keep the entries that do not decode to the branch
  // ---------------------------------------------------------------------

  /**
   * The new fetch list `remove` builds for one remote: in order, the
   * entries that do not decode to `branch`; a panic at the first entry
   * that cannot be decoded.
   */
  function FilterOut(fetch: seq<string>, branch: string): (r: Result<seq<string>>)
    ensures r.Ok? <==> AllDecodable(fetch)
    ensures r.Err? ==> FirstPanic(fetch, r.panic)
    ensures r.Ok? ==> Subsequence(r.value, fetch)
    ensures r.Ok? ==> forall s :: s in r.value ==> !Matches(s, branch)
    decreases |fetch|
  {
    if fetch == [] then
      Ok([])
    else
      DecodableCons(fetch);
      assert fetch == [fetch[0]] + fetch[1..];
      match Deflate(fetch[0])
      case Err(p) =>
        assert AllDecodable(fetch[..0]);
        Err(p)
      case Ok(d) =>
        match FilterOut(fetch[1..], branch)
        case Err(p) =>
          FirstPanicCons(fetch, p);
          Err(p)
        case Ok(rest) =>
          if d == branch then Ok(rest) else Ok([fetch[0]] + rest)
  }

  /** Filtering distributes over concatenation, panics included. */
  lemma {:induction false} FilterOutAppend(a: seq<string>, c: seq<string>, branch: string)
    ensures FilterOut(a + c, branch) ==
            match FilterOut(a, branch)
            case Err(p) => Err(p)
            case Ok(x) =>
              match FilterOut(c, branch)
              case Err(p) => Err(p)
              case Ok(y) => Ok(x + y)
    decreases |a|
  {
    if a == [] {
      assert a + c == c;
      match FilterOut(c, branch)
      case Err(_) =>
      case Ok(y) => assert a + y == y;
    } else {
      assert (a + c)[0] == a[0];
      assert (a + c)[1..] == a[1..] + c;
      FilterOutAppend(a[1..], c, branch);
      match FilterOut(a[1..], branch)
      case Err(_) =>
      case Ok(x) =>
        match FilterOut(c, branch)
        case Err(_) =>
        case Ok(y) =>
          assert [a[0]] + (x + y) == ([a[0]] + x) + y;
    }
  }

  /** rm is idempotent. */
  lemma {:induction false} FilterOutIdempotent(fetch: seq<string>, branch: string)
    requires FilterOut(fetch, branch).Ok?
    ensures var f := FilterOut(fetch, branch).value;
            FilterOut(f, branch) == Ok(f)
    decreases |fetch|
  {
    if fetch != [] {
      FilterOutIdempotent(fetch[1..], branch);
      var d := Deflate(fetch[0]).value;
      var rest := FilterOut(fetch[1..], branch).value;
      if d != branch {
        var f := [fetch[0]] + rest;
        assert f[0] == fetch[0] && f[1..] == rest;
      }
    }
  }

  /** rm leaves a list alone exactly when no entry decodes to the branch. */
  lemma {:induction false} FilterOutUnchanged(fetch: seq<string>, branch: string)
    ensures FilterOut(fetch, branch) == Ok(fetch) <==>
            AllDecodable(fetch) && forall i :: 0 <= i < |fetch| ==> !Matches(fetch[i], branch)
    decreases |fetch|
  {
    if fetch != [] {
      FilterOutUnchanged(fetch[1..], branch);
      DecodableCons(fetch);
      var r := FilterOut(fetch, branch);
      if r == Ok(fetch) {
        forall i | 0 <= i < |fetch| ensures !Matches(fetch[i], branch) {
          assert fetch[i] in r.value;
        }
      }
      if AllDecodable(fetch) && forall i :: 0 <= i < |fetch| ==> !Matches(fetch[i], branch) {
        assert !Matches(fetch[0], branch);
        forall i | 0 <= i < |fetch| - 1 ensures !Matches(fetch[1..][i], branch) {
          assert fetch[1..][i] == fetch[i + 1];
        }
        assert fetch == [fetch[0]] + fetch[1..];
      }
    }
  }

  /** Filtering a one-entry list. */
  lemma FilterOutSingle(s: string, branch: string)
    ensures FilterOut([s], branch) ==
            match Deflate(s)
            case Err(p) => Err(p)
            case Ok(d) => Ok(if d == branch then [] else [s])
  {
    assert [s][0] == s && [s][1..] == [];
    assert [s] + [] == [s];
  }

  /**
   * Entries that do not decode to the branch survive rm with their
   * multiplicity; those that do are all gone.
   */
  lemma {:induction false} FilterOutCounts(fetch: seq<string>, branch: string, s: string)
    requires FilterOut(fetch, branch).Ok?
    ensures multiset(FilterOut(fetch, branch).value)[s] ==
            if Matches(s, branch) then 0 else multiset(fetch)[s]
    decreases |fetch|
  {
    if fetch != [] {
      FilterOutCounts(fetch[1..], branch, s);
      assert fetch == [fetch[0]] + fetch[1..];
      var rest := FilterOut(fetch[1..], branch).value;
      if !Matches(fetch[0], branch) {
        assert FilterOut(fetch, branch).value == [fetch[0]] + rest;
      }
    }
  }

  /**
   * rm after add: the refspec add appended is exactly what rm takes out
   * again, whatever else the list holds.
   */
  lemma RemoveAfterAdd(fetch: seq<string>, branch: string)
    requires !Contains(branch, Marker)
    ensures FilterOut(fetch + [Inflate(branch)], branch) == FilterOut(fetch, branch)
  {
    FilterOutAppend(fetch, [Inflate(branch)], branch);
    FilterOutSingle(Inflate(branch), branch);
    RoundTrip(branch);
    match FilterOut(fetch, branch)
    case Err(_) =>
    case Ok(x) => assert x + [] == x;
  }

  /** On a list that did not track the branch, rm undoes add. */
  lemma RemoveUndoesAdd(fetch: seq<string>, branch: string)
    requires !Contains(branch, Marker)
    requires AllDecodable(fetch)
    requires forall i :: 0 <= i < |fetch| ==> !Matches(fetch[i], branch)
    ensures FilterOut(fetch + [Inflate(branch)], branch) == Ok(fetch)
  {
    RemoveAfterAdd(fetch, branch);
    FilterOutUnchanged(fetch, branch);
  }

  // ---------------------------------------------------------------------
  // ls: the decoded, non-empty branch names, in list order
  // ---------------------------------------------------------------------

  datatype Option<+T> = None | Some(value: T)

  /** The lines `ls` prints for one remote, and the panic that stops it. */
  datatype Listing = Listing(lines: seq<string>, panic: Option<Panic>)

  function ListFetch(fetch: seq<string>): (l: Listing)
    ensures l.panic.None? <==> AllDecodable(fetch)
    ensures l.panic.Some? ==> FirstPanic(fetch, l.panic.value)
    ensures |l.lines| <= |fetch|
    ensures forall line :: line in l.lines ==>
              line != "" && !Contains(line, Marker) &&
              exists i :: 0 <= i < |fetch| && Deflate(fetch[i]) == Ok(line)
    ensures l.panic.None? ==> forall i :: 0 <= i < |fetch| && Deflate(fetch[i]).value != "" ==>
              Deflate(fetch[i]).value in l.lines
    decreases |fetch|
  {
    if fetch == [] then
      Listing([], None)
    else
      DecodableCons(fetch);
      match Deflate(fetch[0])
      case Err(p) =>
        assert AllDecodable(fetch[..0]);
        Listing([], Some(p))
      case Ok(d) =>
        var rest := ListFetch(fetch[1..]);
        assert rest.panic.Some? ==> FirstPanic(fetch, rest.panic.value) by {
          if rest.panic.Some? {
            FirstPanicCons(fetch, rest.panic.value);
          }
        }
        assert forall i :: 0 <= i < |fetch| - 1 ==> fetch[1..][i] == fetch[i + 1];
        Listing(if d == "" then rest.lines else [d] + rest.lines, rest.panic)
  }

  /** Listing distributes over concatenation; a panic cuts the rest off. */
  lemma {:induction false} ListAppend(a: seq<string>, c: seq<string>)
    ensures ListFetch(a + c) ==
            if ListFetch(a).panic.Some? then ListFetch(a)
            else Listing(ListFetch(a).lines + ListFetch(c).lines, ListFetch(c).panic)
    decreases |a|
  {
    if a == [] {
      assert a + c == c;
    } else {
      assert (a + c)[0] == a[0];
      assert (a + c)[1..] == a[1..] + c;
      ListAppend(a[1..], c);
      if Deflate(a[0]).Ok? && ListFetch(a[1..]).panic.None? {
        var d := Deflate(a[0]).value;
        assert [d] + (ListFetch(a[1..]).lines + ListFetch(c).lines) ==
               ([d] + ListFetch(a[1..]).lines) + ListFetch(c).lines;
      }
    }
  }

  /** Listing a one-entry list. */
  lemma ListSingle(s: string)
    ensures ListFetch([s]) ==
            match Deflate(s)
            case Err(p) => Listing([], Some(p))
            case Ok(d) => Listing(if d == "" then [] else [d], None)
  {
  }

  /** ls after add shows the added branch once more, at the end. */
  lemma ListAfterAdd(fetch: seq<string>, branch: string)
    requires !Contains(branch, Marker)
    ensures ListFetch(fetch + [Inflate(branch)]) ==
            if ListFetch(fetch).panic.Some? then ListFetch(fetch)
            else Listing(ListFetch(fetch).lines + (if branch == "" then [] else [branch]), None)
  {
    ListAppend(fetch, [Inflate(branch)]);
    ListSingle(Inflate(branch));
    RoundTrip(branch);
  }

  /** add does not deduplicate: adding twice lists the branch twice. */
  lemma AddTwiceListsTwice(fetch: seq<string>, branch: string)
    requires !Contains(branch, Marker) && branch != ""
    requires AllDecodable(fetch)
    ensures ListFetch(fetch + [Inflate(branch)] + [Inflate(branch)]) ==
            Listing(ListFetch(fetch).lines + [branch] + [branch], None)
  {
    var once := fetch + [Inflate(branch)];
    var lines := ListFetch(fetch).lines;
    assert ListFetch(once) == Listing(lines + [branch], None) by {
      ListAfterAdd(fetch, branch);
    }
    ListAfterAdd(once, branch);
  }

  /** After rm, ls runs to the end and never shows the removed branch. */
  lemma ListAfterRemove(fetch: seq<string>, branch: string)
    requires FilterOut(fetch, branch).Ok?
    ensures var l := ListFetch(FilterOut(fetch, branch).value);
            l.panic.None? && branch !in l.lines
  {
  }

  /**
   * An end-to-end scenario: an empty list, add "release", ls, rm "release".
   */
  lemma ReleaseScenario()
    ensures ListFetch([Inflate("release")]) == Listing(["release"], None)
    ensures FilterOut([Inflate("release")], "release") == Ok([])
  {
    var b := "release";
    assert !Contains(b, Marker) by {
      forall i | 0 <= i <= |b| - |Marker| ensures !OccursAt(b, Marker, i) {
        assert b[i..i + |Marker|][0] == b[i] != '*';
      }
    }
    ListAfterAdd([], b);
    RemoveAfterAdd([], b);
    assert [] + [Inflate(b)] == [Inflate(b)];
  }
}
