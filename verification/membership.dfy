/** The membership column of the `rooms` table: player ids joined with `,`.
    `Split` and `Join` are JavaScript's `split(',')` and `join(',')`;
    `Decode` is the reading done by join-room, where an empty column means
    no members. */
module Membership {

  const Comma: char := ','

  /** `s.split(',')`: the pieces between commas, always at least one. */
  function Split(s: string): (parts: seq<string>)
    ensures |parts| >= 1
    ensures forall i :: 0 <= i < |parts| ==> Comma !in parts[i]
    decreases |s|
  {
    if |s| == 0 then [""]
    else
      var rest := Split(s[1..]);
      if s[0] == Comma then [""] + rest
      else [[s[0]] + rest[0]] + rest[1..]
  }

  /** `xs.join(',')`. */
  function Join(xs: seq<string>): string
    decreases |xs|
  {
    if |xs| == 0 then ""
    else if |xs| == 1 then xs[0]
    else xs[0] + [Comma] + Join(xs[1..])
  }

  /** `stored ? stored.split(',') : []`, the member list join-room reads. */
  function Decode(stored: string): (members: seq<string>)
    ensures forall i :: 0 <= i < |members| ==> Comma !in members[i]
    ensures members == [] <==> stored == ""
  {
    if stored == "" then [] else Split(stored)
  }

  /** Every piece is free of the separator. */
  predicate CommaFree(xs: seq<string>)
  {
    forall i :: 0 <= i < |xs| ==> Comma !in xs[i]
  }

  /** No id occurs twice. */
  predicate Distinct(xs: seq<string>)
  {
    forall i, j :: 0 <= i < j < |xs| ==> xs[i] != xs[j]
  }

  /** `xs.filter(p => p !== id)`: every occurrence of `id` removed. */
  function Without(xs: seq<string>, id: string): (r: seq<string>)
    ensures id !in r
    ensures forall x :: x in r <==> x in xs && x != id
    ensures id !in xs ==> r == xs
    ensures |r| <= |xs|
    decreases |xs|
  {
    if |xs| == 0 then []
    else if xs[0] == id then Without(xs[1..], id)
    else [xs[0]] + Without(xs[1..], id)
  }

  /** `r` is `xs` with some elements dropped and the rest in their order. */
  predicate IsSubsequence(r: seq<string>, xs: seq<string>)
    decreases |xs|
  {
    if |r| == 0 then true
    else if |xs| == 0 then false
    else if r[0] == xs[0] then IsSubsequence(r[1..], xs[1..])
    else IsSubsequence(r, xs[1..])
  }

  // ---------------------------------------------------------------------
  // The codec

  /** A piece without a comma splits to itself. */
  lemma {:induction false} SplitNoComma(a: string)
    requires Comma !in a
    ensures Split(a) == [a]
    decreases |a|
  {
    if |a| > 0 {
      SplitNoComma(a[1..]);
      assert [a[0]] + a[1..] == a;
    }
  }

  /** Splitting distributes over a comma. */
  lemma {:induction false} SplitComma(a: string, b: string)
    ensures Split(a + [Comma] + b) == Split(a) + Split(b)
    decreases |a|
  {
    var s := a + [Comma] + b;
    if |a| == 0 {
      assert s[1..] == b;
    } else {
      assert s[1..] == a[1..] + [Comma] + b;
      SplitComma(a[1..], b);
    }
  }

  /** Joining what was split gives back the original string. */
  lemma {:induction false} JoinSplit(s: string)
    ensures Join(Split(s)) == s
    decreases |s|
  {
    if |s| > 0 {
      var rest := Split(s[1..]);
      JoinSplit(s[1..]);
      if s[0] == Comma {
        assert Split(s) == [""] + rest;
        assert ([""] + rest)[1..] == rest;
        assert Join(Split(s)) == "" + [Comma] + Join(rest);
      } else {
        var parts := [[s[0]] + rest[0]] + rest[1..];
        assert Split(s) == parts;
        if |rest| == 1 {
          assert parts == [[s[0]] + rest[0]];
        } else {
          assert parts[1..] == rest[1..];
          assert Join(parts) == [s[0]] + rest[0] + [Comma] + Join(rest[1..]);
          assert Join(rest) == rest[0] + [Comma] + Join(rest[1..]);
        }
      }
    }
  }

  /** Splitting what was joined gives back the pieces, when none holds a comma. */
  lemma {:induction false} SplitJoin(xs: seq<string>)
    requires |xs| >= 1 && CommaFree(xs)
    ensures Split(Join(xs)) == xs
    decreases |xs|
  {
    SplitNoComma(xs[0]);
    if |xs| > 1 {
      SplitJoin(xs[1..]);
      SplitComma(xs[0], Join(xs[1..]));
      assert [xs[0]] + xs[1..] == xs;
    }
  }

  /** Codec round trip: decoding an encoded member list gives the list back,
      for comma-free ids; the single empty id is the one list lost, since it
      is stored as the empty string. */
  lemma DecodeJoin(xs: seq<string>)
    requires CommaFree(xs) && xs != [""]
    ensures Decode(Join(xs)) == xs
  {
    if |xs| > 0 {
      SplitJoin(xs);
      if |xs| > 1 {
        assert Join(xs) == xs[0] + [Comma] + Join(xs[1..]);
      }
    }
  }

  /** Codec round trip the other way: every stored string is re-encoded
      exactly by joining its decoded members. */
  lemma JoinDecode(stored: string)
    ensures Join(Decode(stored)) == stored
  {
    if stored != "" {
      JoinSplit(stored);
    }
  }

  /** Appending one id adds one separator and the id at the end. */
  lemma {:induction false} JoinAppend(xs: seq<string>, y: string)
    requires |xs| >= 1
    ensures Join(xs + [y]) == Join(xs) + [Comma] + y
    decreases |xs|
  {
    var ys := xs + [y];
    if |xs| == 1 {
      assert ys[1..] == [y];
    } else {
      assert ys[1..] == xs[1..] + [y];
      JoinAppend(xs[1..], y);
    }
  }

  /** What join-room stores when it appends `id`: reading it back gives the
      old members followed by the pieces of `id`. */
  lemma DecodeAppend(stored: string, id: string)
    requires id != ""
    ensures Decode(Join(Decode(stored) + [id])) == Decode(stored) + Split(id)
  {
    if stored == "" {
      assert Decode(stored) + [id] == [id];
    } else {
      JoinAppend(Split(stored), id);
      JoinSplit(stored);
      SplitComma(stored, id);
    }
  }

  // ---------------------------------------------------------------------
  // Removal

  /** Removal keeps the other ids in their order. */
  lemma {:induction false} WithoutKeepsOrder(xs: seq<string>, id: string)
    ensures IsSubsequence(Without(xs, id), xs)
    decreases |xs|
  {
    if |xs| > 0 {
      WithoutKeepsOrder(xs[1..], id);
      var w := Without(xs[1..], id);
      if xs[0] == id {
        SubsequenceOfTail(w, xs);
      } else {
        assert ([xs[0]] + w)[1..] == w;
      }
    }
  }

  /** A subsequence of the tail is a subsequence of the whole. */
  lemma {:induction false} SubsequenceOfTail(r: seq<string>, xs: seq<string>)
    requires |xs| > 0 && IsSubsequence(r, xs[1..])
    ensures IsSubsequence(r, xs)
    decreases |xs|, 0
  {
    if |r| > 0 && r[0] == xs[0] {
      DropHead(r, xs[1..]);
    }
  }

  /** Dropping the first element of a subsequence leaves a subsequence. */
  lemma {:induction false} DropHead(r: seq<string>, ys: seq<string>)
    requires |r| > 0 && IsSubsequence(r, ys)
    ensures IsSubsequence(r[1..], ys)
    decreases |ys|, 1
  {
    if r[0] == ys[0] {
      SubsequenceOfTail(r[1..], ys);
    } else {
      DropHead(r, ys[1..]);
      SubsequenceOfTail(r[1..], ys);
    }
  }

  /** Removal drops exactly the occurrences of `id`, counted with multiplicity. */
  lemma {:induction false} WithoutCounts(xs: seq<string>, id: string)
    ensures multiset(Without(xs, id)) == multiset(xs)[id := 0]
    decreases |xs|
  {
    if |xs| > 0 {
      WithoutCounts(xs[1..], id);
      assert xs == [xs[0]] + xs[1..];
    }
  }

  /** Removal keeps a list free of repeats. */
  lemma {:induction false} WithoutDistinct(xs: seq<string>, id: string)
    requires Distinct(xs)
    ensures Distinct(Without(xs, id))
    decreases |xs|
  {
    if |xs| > 0 {
      WithoutDistinct(xs[1..], id);
      var w := Without(xs[1..], id);
      if xs[0] != id {
        assert xs[0] !in xs[1..];
        var r := [xs[0]] + w;
        forall i, j | 0 <= i < j < |r|
          ensures r[i] != r[j]
        {
          if i == 0 {
            assert r[j] == w[j - 1];
            assert r[j] in w;
          } else {
            assert r[i] == w[i - 1] && r[j] == w[j - 1];
          }
        }
      }
    }
  }

  /** Removing an id that was just appended removes the append too. */
  lemma {:induction false} WithoutAppended(xs: seq<string>, id: string)
    ensures Without(xs + [id], id) == Without(xs, id)
    decreases |xs|
  {
    if |xs| > 0 {
      assert (xs + [id])[1..] == xs[1..] + [id];
      WithoutAppended(xs[1..], id);
    } else {
      assert Without([id], id) == Without([], id);
    }
  }
}
