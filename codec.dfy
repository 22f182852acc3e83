/**
 * The refspec codec of git-track: a branch name is stored in a remote's
 * fetch list as the wildcard refspec
 *   +refs/heads/<branch>*:refs/remotes/origin/<branch>*
 * and read back by dropping a fixed-length prefix and cutting at the
 * first "*:" marker.
 *
 * Go strings are byte strings; here a string is a sequence of characters,
 * so lengths and offsets count characters. The two agree on refspecs whose
 * first PrefixLength bytes are ASCII, which every refspec Inflate writes is.
 */
module RefSpecCodec {

  /** The two ways decoding a refspec makes the Go runtime panic. */
  datatype Panic =
    | PrefixOutOfRange  // the refspec is shorter than the prefix that is cut off
    | MarkerNotFound    // no "*:" after the prefix: the slice end is -1

  datatype Result<+T> = Ok(value: T) | Err(panic: Panic)

  /** Number of leading characters decoding discards, whatever they are. */
  const PrefixLength: nat := 12

  const HeadsPrefix: string := "+refs/heads/"

  /** The marker that ends the branch name inside a refspec. */
  const Marker: string := "*:"

  const OriginInfix: string := "*:refs/remotes/origin/"

  // ---------------------------------------------------------------------
  // Substring search (Go's strings.Index)
  // ---------------------------------------------------------------------

  predicate OccursAt(s: string, sep: string, i: int)
  {
    0 <= i && i + |sep| <= |s| && s[i..i + |sep|] == sep
  }

  predicate Contains(s: string, sep: string)
  {
    exists i :: 0 <= i <= |s| && OccursAt(s, sep, i)
  }

  lemma OccursAtTail(s: string, sep: string, i: int)
    requires |s| > 0 && 0 <= i
    ensures OccursAt(s[1..], sep, i) <==> OccursAt(s, sep, i + 1)
  {
  }

  /**
   * The index of the first occurrence of `sep` in `s`, or -1 when there
   * is none.
   */
  function Index(s: string, sep: string): (r: int)
    ensures r == -1 || (0 <= r && OccursAt(s, sep, r))
    ensures r == -1 <==> !Contains(s, sep)
    ensures forall i :: 0 <= i < r ==> !OccursAt(s, sep, i)
    decreases |s|
  {
    if |s| < |sep| then
      -1
    else if s[..|sep|] == sep then
      0
    else
      var k := Index(s[1..], sep);
      if k < 0 then
        assert !Contains(s, sep) by {
          forall i | 1 <= i ensures !OccursAt(s, sep, i) {
            OccursAtTail(s, sep, i - 1);
          }
        }
        -1
      else
        OccursAtTail(s, sep, k);
        forall i | 1 <= i < k + 1 ensures !OccursAt(s, sep, i) {
          OccursAtTail(s, sep, i - 1);
        }
        k + 1
  }

  /** Index is determined by an occurrence with none before it. */
  lemma IndexIsFirst(s: string, sep: string, k: int)
    requires OccursAt(s, sep, k)
    requires forall i :: 0 <= i < k ==> !OccursAt(s, sep, i)
    ensures Index(s, sep) == k
  {
  }

  // ---------------------------------------------------------------------
  // inflateBranch / deflateBranch
  // ---------------------------------------------------------------------

  /** inflateBranch: the wildcard fetch refspec that tracks `branch`. */
  function Inflate(branch: string): (r: string)
    ensures |r| == |HeadsPrefix| + |OriginInfix| + 2 * |branch| + 1
    ensures r[..PrefixLength] == HeadsPrefix
    ensures r[PrefixLength..] == branch + OriginInfix + branch + "*"
  {
    HeadsPrefix + branch + OriginInfix + branch + "*"
  }

  /**
   * deflateBranch: drop the first PrefixLength characters unchecked, then
   * keep what precedes the first marker. Go panics when either slice is
   * out of range.
   */
  function Deflate(refSpec: string): (r: Result<string>)
    ensures r.Ok? <==> |refSpec| >= PrefixLength && Contains(refSpec[PrefixLength..], Marker)
    ensures r == Err(PrefixOutOfRange) <==> |refSpec| < PrefixLength
    ensures r.Ok? ==>
              var rest := refSpec[PrefixLength..];
              && |r.value| + |Marker| <= |rest|
              && rest[..|r.value|] == r.value
              && OccursAt(rest, Marker, |r.value|)
    ensures r.Ok? ==> !Contains(r.value, Marker)
  {
    if |refSpec| < PrefixLength then
      Err(PrefixOutOfRange)
    else
      var rest := refSpec[PrefixLength..];
      var k := Index(rest, Marker);
      if k < 0 then
        Err(MarkerNotFound)
      else
        assert !Contains(rest[..k], Marker) by {
          forall i | OccursAt(rest[..k], Marker, i) ensures false {
            assert rest[..k][i..i + |Marker|] == rest[i..i + |Marker|];
            assert OccursAt(rest, Marker, i);
          }
        }
        Ok(rest[..k])
  }

  /**
   * Searching `b + t` where `t` starts with the marker finds the first
   * marker inside `b` if there is one, and otherwise the one that opens
   * `t`: an occurrence straddling the seam would need ':' where `t` has '*'.
   */
  lemma {:induction false} IndexBeforeMarker(b: string, t: string)
    requires OccursAt(t, Marker, 0)
    ensures Index(b + t, Marker) == if Contains(b, Marker) then Index(b, Marker) else |b|
  {
    var s := b + t;
    assert s[..|b|] == b;
    forall i | 0 <= i && i + |Marker| <= |b|
      ensures OccursAt(s, Marker, i) <==> OccursAt(b, Marker, i)
    {
      assert s[i..i + |Marker|] == b[i..i + |Marker|];
    }
    if Contains(b, Marker) {
      var j := Index(b, Marker);
      IndexIsFirst(s, Marker, j);
    } else {
      assert s[|b|..|b| + |Marker|] == t[..|Marker|];
      forall i | 0 <= i < |b| ensures !OccursAt(s, Marker, i) {
        if i + |Marker| > |b| {
          assert s[i + 1] == t[0] == '*';
        } else {
          assert !OccursAt(b, Marker, i);
        }
      }
      IndexIsFirst(s, Marker, |b|);
    }
  }

  /**
   * Decoding an encoded branch: the branch itself when it holds no
   * marker, and otherwise its part before the first marker.
   */
  lemma {:induction false} DeflateInflate(b: string)
    ensures Deflate(Inflate(b)) ==
            Ok(if Contains(b, Marker) then b[..Index(b, Marker)] else b)
  {
    var rest := Inflate(b)[PrefixLength..];
    var t := OriginInfix + b + "*";
    assert rest == b + t;
    assert t[..|Marker|] == Marker;
    IndexBeforeMarker(b, t);
    assert rest[..|b|] == b;
    if Contains(b, Marker) {
      var j := Index(b, Marker);
      assert rest[..j] == b[..j];
    }
  }

  /**
   * The round-trip law, in both directions: the refspec of a marker-free
   * branch decodes to that branch, and so to no other name.
   */
  lemma RoundTrip(b: string)
    ensures Deflate(Inflate(b)) == Ok(b) <==> !Contains(b, Marker)
  {
    DeflateInflate(b);
  }

  /** The first PrefixLength characters never influence decoding. */
  lemma DeflateIgnoresPrefix(p: string, t: string)
    requires |p| == PrefixLength
    ensures Deflate(p + t) == Deflate(HeadsPrefix + t)
  {
  }
}
