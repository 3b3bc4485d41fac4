/**
  The slug extraction done by the `set_current_event` command: the URL is
  split at every '/', the last four pieces are kept (all of them when there
  are fewer) and joined back with '/'.  `Split` and `Join` follow Python's
  `str.split(sep)` and `sep.join(list)`; `Last` is the list slice `[-n:]` for n >= 1.
 */
module Slugs {

  const Sep: char := '/'

  /** How many trailing segments of the URL form the event slug. */
  const SlugSegments: nat := 4

  /** `s.split('/')`: at least one piece, none of them holding a separator. */
  function Split(s: string): (parts: seq<string>)
    ensures |parts| >= 1
    ensures forall i :: 0 <= i < |parts| ==> Sep !in parts[i]
  {
    if s == [] then [[]]
    else
      var rest := Split(s[1..]);
      assert s == [s[0]] + s[1..];
      if s[0] == Sep then [[]] + rest
      else [[s[0]] + rest[0]] + rest[1..]
  }

  /** `'/'.join(parts)`. */
  function Join(parts: seq<string>): string
  {
    if |parts| == 0 then []
    else if |parts| == 1 then parts[0]
    else parts[0] + [Sep] + Join(parts[1..])
  }

  /**
    The list slice `parts[-n:]` for n >= 1: the last `n` elements, or all of
    them when there are fewer.  (Python's `[-0:]` is the whole list, so n = 0
    is excluded.)
   */
  function Last<T>(parts: seq<T>, n: nat): seq<T>
    requires n > 0
  {
    if |parts| <= n then parts else parts[|parts| - n..]
  }

  /** `'/'.join(url.split('/')[-4:])`. */
  function ExtractSlug(url: string): string
  {
    Join(Last(Split(url), SlugSegments))
  }

  /** A split has one piece more than the string has separators. */
  lemma {:induction false} SplitCount(s: string)
    ensures |Split(s)| == multiset(s)[Sep] + 1
  {
    if s != [] {
      SplitCount(s[1..]);
      assert s == [s[0]] + s[1..];
      assert multiset(s) == multiset{s[0]} + multiset(s[1..]);
    }
  }

  /** Joining the pieces of a split gives the string back. */
  lemma {:induction false} JoinSplit(s: string)
    ensures Join(Split(s)) == s
  {
    if s != [] {
      var rest := Split(s[1..]);
      JoinSplit(s[1..]);
      assert s == [s[0]] + s[1..];
      if s[0] == Sep {
        var parts := [[]] + rest;
        assert Split(s) == parts;
        assert parts[1..] == rest;
        assert Join(parts) == [] + [Sep] + Join(rest);
      } else if |rest| == 1 {
        assert Split(s) == [[s[0]] + rest[0]];
      } else {
        var parts := [[s[0]] + rest[0]] + rest[1..];
        assert Split(s) == parts;
        assert parts[1..] == rest[1..];
        assert Join(rest) == rest[0] + [Sep] + Join(rest[1..]);
        assert Join(parts) == ([s[0]] + rest[0]) + [Sep] + Join(rest[1..]);
      }
    }
  }

  /** Splitting a string that starts with a separator-free piece `a`: `a` is glued to the first piece. */
  lemma {:induction false} SplitAfter(a: string, s: string)
    requires Sep !in a
    ensures Split(a + s) == [a + Split(s)[0]] + Split(s)[1..]
  {
    if a == [] {
      assert a + s == s;
      assert [] + Split(s)[0] == Split(s)[0];
      assert Split(s) == [Split(s)[0]] + Split(s)[1..];
    } else {
      SplitAfter(a[1..], s);
      assert (a + s)[0] == a[0];
      assert (a + s)[1..] == a[1..] + s;
      assert [a[0]] + (a[1..] + Split(s)[0]) == a + Split(s)[0];
    }
  }

  /** Splitting a join of separator-free pieces gives the pieces back. */
  lemma {:induction false} SplitJoin(parts: seq<string>)
    requires |parts| >= 1
    requires forall i :: 0 <= i < |parts| ==> Sep !in parts[i]
    ensures Split(Join(parts)) == parts
  {
    if |parts| == 1 {
      SplitAfter(parts[0], []);
      assert parts[0] + [] == parts[0];
    } else {
      var tail := Join(parts[1..]);
      SplitJoin(parts[1..]);
      assert ([Sep] + tail)[0] == Sep && ([Sep] + tail)[1..] == tail;
      assert Split([Sep] + tail) == [[]] + parts[1..];
      SplitAfter(parts[0], [Sep] + tail);
      assert parts[0] + [Sep] + tail == parts[0] + ([Sep] + tail);
      assert parts[0] + [] == parts[0];
    }
  }

  /** A join is the join of a prefix of the pieces, a separator, and the join of the rest. */
  lemma {:induction false} JoinAt(parts: seq<string>, i: nat)
    requires 0 < i < |parts|
    ensures Join(parts) == Join(parts[..i]) + [Sep] + Join(parts[i..])
  {
    if i > 1 {
      JoinAt(parts[1..], i - 1);
      assert parts[1..][..i - 1] == parts[..i][1..];
      assert parts[1..][i - 1..] == parts[i..];
    }
  }

  /**
    The slug is a suffix of the URL; when the URL has more than four
    segments, a separator stands right before it.
   */
  lemma SlugIsSuffix(url: string)
    ensures var slug := ExtractSlug(url);
      |slug| <= |url| && url[|url| - |slug|..] == slug &&
      (|Split(url)| > SlugSegments ==> |slug| < |url| && url[|url| - |slug| - 1] == Sep)
  {
    var parts := Split(url);
    JoinSplit(url);
    if |parts| > SlugSegments {
      var k := |parts| - SlugSegments;
      JoinAt(parts, k);
      var prefix := Join(parts[..k]);
      assert url == prefix + [Sep] + ExtractSlug(url);
    }
  }

  /** A URL with at most four segments (at most three separators) is its own slug. */
  lemma ShortUrlUnchanged(url: string)
    requires |Split(url)| <= SlugSegments
    ensures ExtractSlug(url) == url
  {
    JoinSplit(url);
  }

  /** The slug's own segments are exactly the last min(4, k) segments of the URL. */
  lemma SlugSegmentsOf(url: string)
    ensures Split(ExtractSlug(url)) == Last(Split(url), SlugSegments)
    ensures |Split(ExtractSlug(url))| == if |Split(url)| <= SlugSegments then |Split(url)| else SlugSegments
  {
    var parts := Split(url);
    var kept := Last(parts, SlugSegments);
    forall i | 0 <= i < |kept| ensures Sep !in kept[i] {
      assert kept[i] == parts[|parts| - |kept| + i];
    }
    SplitJoin(kept);
  }

  /** Setting the event to an already extracted slug keeps it. */
  lemma SlugIdempotent(url: string)
    ensures ExtractSlug(ExtractSlug(url)) == ExtractSlug(url)
  {
    SlugSegmentsOf(url);
    ShortUrlUnchanged(ExtractSlug(url));
  }

  /** The pieces of an event page address. */
  const EventPageParts: seq<string> := ["start.gg", "tournament", "msv", "event", "ult"]

  /** Helper for EventPageSlug: the join of the last four pieces. */
  lemma JoinEventPageTail()
    ensures Join(EventPageParts[1..]) == "tournament/msv/event/ult"
  {
    var parts := EventPageParts;
    assert Join(parts[3..]) == "event/ult";
    assert Join(parts[2..]) == "msv/event/ult";
  }

  /** Helper for EventPageSlug: the join of all five pieces. */
  lemma JoinEventPage()
    ensures Join(EventPageParts) == "start.gg/tournament/msv/event/ult"
  {
    JoinEventPageTail();
    assert Join(EventPageParts) == "start.gg" + "/" + "tournament/msv/event/ult";
  }

  /** An event page address yields the tournament/event path, without the host. */
  lemma EventPageSlug()
    ensures ExtractSlug("start.gg/tournament/msv/event/ult") == "tournament/msv/event/ult"
  {
    JoinEventPage();
    JoinEventPageTail();
    SplitJoin(EventPageParts);
    assert Last(EventPageParts, SlugSegments) == EventPageParts[1..];
  }
}
