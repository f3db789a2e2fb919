/** The text normalisers of utils.py: each deletes every occurrence of one character. */
module Utils {

  /** `r` can be obtained from `s` by dropping some positions, keeping the order of the rest. */
  ghost predicate Subsequence<T>(r: seq<T>, s: seq<T>)
    decreases |s|
  {
    |r| == 0 || (|s| > 0 && ((r[0] == s[0] && Subsequence(r[1..], s[1..])) || Subsequence(r, s[1..])))
  }

  /** `re.sub` with a one-character pattern and an empty replacement. */
  function Delete(s: string, c: char): (r: string)
    ensures c !in r
    ensures multiset(r) == multiset(s)[c := 0]
    ensures |r| == |s| - multiset(s)[c]
    ensures Subsequence(r, s)
  {
    if |s| == 0 then ""
    else
      assert s == [s[0]] + s[1..];
      if s[0] == c then Delete(s[1..], c)
      else [s[0]] + Delete(s[1..], c)
  }

  function RemoveDots(text: string): (r: string)
    ensures '.' !in r
    ensures multiset(r) == multiset(text)['.' := 0]
    ensures |r| == |text| - multiset(text)['.']
    ensures Subsequence(r, text)
  {
    Delete(text, '.')
  }

  function RemoveQuotes(text: string): (r: string)
    ensures '"' !in r
    ensures multiset(r) == multiset(text)['"' := 0]
    ensures |r| == |text| - multiset(text)['"']
    ensures Subsequence(r, text)
  {
    Delete(text, '"')
  }

  lemma {:induction false} SubsequenceMultiset<T>(r: seq<T>, s: seq<T>)
    requires Subsequence(r, s)
    ensures multiset(r) <= multiset(s)
    decreases |s|
  {
    if |r| == 0 {
    } else {
      assert s == [s[0]] + s[1..];
      if r[0] == s[0] && Subsequence(r[1..], s[1..]) {
        SubsequenceMultiset(r[1..], s[1..]);
        assert r == [r[0]] + r[1..];
      } else {
        SubsequenceMultiset(r, s[1..]);
      }
    }
  }

  lemma MultisetCancel<T>(a: multiset<T>, x: multiset<T>, y: multiset<T>)
    requires a + x == a + y
    ensures x == y
  {
    forall e
      ensures x[e] == y[e]
    {
      assert (a + x)[e] == (a + y)[e];
    }
  }

  /** Delete is the only subsequence of `s` holding exactly the characters of `s` other than `c`. */
  lemma {:induction false} DeleteCharacterized(s: string, c: char, r: string)
    ensures r == Delete(s, c) <==> (Subsequence(r, s) && multiset(r) == multiset(s)[c := 0])
    decreases |s|
  {
    if Subsequence(r, s) && multiset(r) == multiset(s)[c := 0] {
      if |s| == 0 {
        assert |multiset(r)| == 0;
      } else {
        assert s == [s[0]] + s[1..];
        if s[0] == c {
          assert |r| == 0 || r[0] != c by {
            if |r| > 0 {
              assert r[0] in multiset(r);
            }
          }
          assert Subsequence(r, s[1..]);
          assert multiset(s[1..])[c := 0] == multiset(s)[c := 0];
          DeleteCharacterized(s[1..], c, r);
        } else if |r| > 0 && r[0] == s[0] && Subsequence(r[1..], s[1..]) {
          assert r == [r[0]] + r[1..];
          assert multiset(r) == multiset{s[0]} + multiset(r[1..]);
          assert multiset(s)[c := 0] == multiset{s[0]} + multiset(s[1..])[c := 0];
          MultisetCancel(multiset{s[0]}, multiset(r[1..]), multiset(s[1..])[c := 0]);
          DeleteCharacterized(s[1..], c, r[1..]);
        } else {
          assert Subsequence(r, s[1..]);
          assert multiset(r)[s[0]] == multiset(s[1..])[s[0]] + 1;
          SubsequenceMultiset(r, s[1..]);
          assert false;
        }
      }
    }
  }

  lemma {:induction false} DeleteAbsent(s: string, c: char)
    requires c !in s
    ensures Delete(s, c) == s
    decreases |s|
  {
    if |s| > 0 {
      DeleteAbsent(s[1..], c);
    }
  }

  lemma {:induction false} DeleteAppend(a: string, b: string, c: char)
    ensures Delete(a + b, c) == Delete(a, c) + Delete(b, c)
    decreases |a|
  {
    if |a| == 0 {
      assert a + b == b;
    } else {
      assert (a + b)[1..] == a[1..] + b;
      DeleteAppend(a[1..], b, c);
    }
  }

  lemma {:induction false} DeleteCommutes(s: string, c: char, d: char)
    ensures Delete(Delete(s, c), d) == Delete(Delete(s, d), c)
    decreases |s|
  {
    if |s| > 0 {
      DeleteCommutes(s[1..], c, d);
      DeleteAppend([s[0]], Delete(s[1..], c), d);
      DeleteAppend([s[0]], Delete(s[1..], d), c);
    }
  }

  lemma RemoveDotsIdempotent(text: string)
    ensures RemoveDots(RemoveDots(text)) == RemoveDots(text)
  {
    DeleteAbsent(RemoveDots(text), '.');
  }

  lemma RemoveDotsUnchanged(text: string)
    requires '.' !in text
    ensures RemoveDots(text) == text
  {
    DeleteAbsent(text, '.');
  }

  lemma RemoveDotsAppend(a: string, b: string)
    ensures RemoveDots(a + b) == RemoveDots(a) + RemoveDots(b)
  {
    DeleteAppend(a, b, '.');
  }

  lemma RemoveQuotesIdempotent(text: string)
    ensures RemoveQuotes(RemoveQuotes(text)) == RemoveQuotes(text)
  {
    DeleteAbsent(RemoveQuotes(text), '"');
  }

  lemma RemoveQuotesUnchanged(text: string)
    requires '"' !in text
    ensures RemoveQuotes(text) == text
  {
    DeleteAbsent(text, '"');
  }

  lemma RemoveQuotesAppend(a: string, b: string)
    ensures RemoveQuotes(a + b) == RemoveQuotes(a) + RemoveQuotes(b)
  {
    DeleteAppend(a, b, '"');
  }

  lemma RemoveDotsQuotesCommute(text: string)
    ensures RemoveDots(RemoveQuotes(text)) == RemoveQuotes(RemoveDots(text))
  {
    DeleteCommutes(text, '"', '.');
  }
}
