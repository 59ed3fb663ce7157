/** The news block of the home page (home/components/NewsSection.tsx): the
    three most recent blogs, by creation date, with a 120-character excerpt
    and a category badge. */
module News {
  import opened Prelude

  /** The fields of a blog the block uses; `createdAt` is the timestamp of a
      present date, `None` for a missing or empty one. */
  datatype Blog = Blog(id: string, title: string, description: Option<string>, createdAt: Option<int>)

  /** The sort key of lines 33-34: the date's time, or 0 without a date. */
  function Timestamp(b: Blog): int {
    b.createdAt.GetOr(0)
  }

  /** Newest first: no blog precedes a newer one. */
  predicate NewestFirst(s: seq<Blog>) {
    forall i, j :: 0 <= i < j < |s| ==> Timestamp(s[i]) >= Timestamp(s[j])
  }

  // ---------------------------------------------------------------------
  // The sort of lines 31-36: `[...blogs].sort((a, b) => tb - ta)`.
  // `Array.prototype.sort` is stable, so blogs with the same time keep
  // their input order; the model is a stable insertion sort.
  // ---------------------------------------------------------------------

  /** Puts `b` after every blog at least as new, before the first older one.
      The contract here is deliberately the length only; what insertion
      means is proved in `InsertPermutes` and `InsertKeepsOrder`. */
  function Insert(b: Blog, s: seq<Blog>): (r: seq<Blog>)
    ensures |r| == |s| + 1
    decreases |s|
  {
    if s == [] then [b]
    else if Timestamp(s[0]) >= Timestamp(b) then [s[0]] + Insert(b, s[1..])
    else [b] + s
  }

  /** The blogs in input order, inserted one after the other. */
  function SortNewestFirst(blogs: seq<Blog>): (sorted: seq<Blog>)
    ensures |sorted| == |blogs|
    decreases |blogs|
  {
    if blogs == [] then [] else Insert(blogs[|blogs| - 1], SortNewestFirst(blogs[..|blogs| - 1]))
  }

  lemma {:induction false} InsertPermutes(b: Blog, s: seq<Blog>)
    ensures multiset(Insert(b, s)) == multiset(s) + multiset{b}
    decreases |s|
  {
    if s != [] && Timestamp(s[0]) >= Timestamp(b) {
      InsertPermutes(b, s[1..]);
      assert s == [s[0]] + s[1..];
    }
  }

  lemma {:induction false} InsertKeepsOrder(b: Blog, s: seq<Blog>)
    requires NewestFirst(s)
    ensures NewestFirst(Insert(b, s))
    decreases |s|
  {
    if s != [] && Timestamp(s[0]) >= Timestamp(b) {
      var tail := s[1..];
      assert NewestFirst(tail) by {
        forall i, j | 0 <= i < j < |tail| ensures Timestamp(tail[i]) >= Timestamp(tail[j]) {
          assert tail[i] == s[i + 1] && tail[j] == s[j + 1];
        }
      }
      InsertKeepsOrder(b, tail);
      InsertPermutes(b, tail);
      var r := Insert(b, tail);
      forall k | 0 <= k < |r| ensures Timestamp(s[0]) >= Timestamp(r[k]) {
        assert r[k] in multiset(tail) + multiset{b};
        if r[k] != b {
          assert r[k] in tail;
          var m :| 0 <= m < |tail| && tail[m] == r[k];
          assert s[m + 1] == r[k];
        }
      }
    }
  }

  /** The sorted copy holds the same blogs, as many times each. */
  lemma {:induction false} SortPermutes(blogs: seq<Blog>)
    ensures multiset(SortNewestFirst(blogs)) == multiset(blogs)
    decreases |blogs|
  {
    if blogs != [] {
      var init := blogs[..|blogs| - 1];
      SortPermutes(init);
      InsertPermutes(blogs[|blogs| - 1], SortNewestFirst(init));
      assert blogs == init + [blogs[|blogs| - 1]];
    }
  }

  /** The sorted copy is newest first. */
  lemma {:induction false} SortOrders(blogs: seq<Blog>)
    ensures NewestFirst(SortNewestFirst(blogs))
    decreases |blogs|
  {
    if blogs != [] {
      SortOrders(blogs[..|blogs| - 1]);
      InsertKeepsOrder(blogs[|blogs| - 1], SortNewestFirst(blogs[..|blogs| - 1]));
    }
  }

  // ---------------------------------------------------------------------
  // `latestBlogs` (lines 31-37)
  // ---------------------------------------------------------------------

  /** The sorted copy cut to its first three. */
  function LatestBlogs(blogs: seq<Blog>): (latest: seq<Blog>)
    ensures |latest| == Min(3, |blogs|)
  {
    SortNewestFirst(blogs)[..Min(3, |blogs|)]
  }

  /** The sorted copy is what is shown followed by what is left out. */
  lemma SplitSorted(blogs: seq<Blog>)
    ensures var sorted := SortNewestFirst(blogs);
      && sorted == LatestBlogs(blogs) + sorted[|LatestBlogs(blogs)|..]
      && NewestFirst(sorted)
      && multiset(blogs) == multiset(LatestBlogs(blogs)) + multiset(sorted[|LatestBlogs(blogs)|..])
  {
    var sorted := SortNewestFirst(blogs);
    SortPermutes(blogs);
    SortOrders(blogs);
    assert sorted == LatestBlogs(blogs) + sorted[|LatestBlogs(blogs)|..];
  }

  /** The blogs shown are newest first and drawn from the input, each at
      most as often as it occurs there. */
  lemma LatestBlogsOrderedFromInput(blogs: seq<Blog>)
    ensures NewestFirst(LatestBlogs(blogs))
    ensures multiset(LatestBlogs(blogs)) <= multiset(blogs)
  {
    SplitSorted(blogs);
    var latest := LatestBlogs(blogs);
    var sorted := SortNewestFirst(blogs);
    forall i, j | 0 <= i < j < |latest| ensures Timestamp(latest[i]) >= Timestamp(latest[j]) {
      assert latest[i] == sorted[i] && latest[j] == sorted[j];
    }
  }

  /** No blog left out is newer than the last one shown. */
  lemma NoOmittedBlogIsNewer(blogs: seq<Blog>)
    requires blogs != []
    ensures var latest := LatestBlogs(blogs);
      forall b :: b in multiset(blogs) - multiset(latest) ==> Timestamp(b) <= Timestamp(latest[|latest| - 1])
  {
    SplitSorted(blogs);
    var latest := LatestBlogs(blogs);
    var sorted := SortNewestFirst(blogs);
    var rest := sorted[|latest|..];
    forall b | b in multiset(blogs) - multiset(latest)
      ensures Timestamp(b) <= Timestamp(latest[|latest| - 1])
    {
      assert b in multiset(rest);
      var m :| 0 <= m < |rest| && rest[m] == b;
      assert sorted[|latest| + m] == b;
      assert sorted[|latest| - 1] == latest[|latest| - 1];
    }
  }

  /** A blog without a date ranks as of time 0: it is shown after any blog
      dated after that instant. */
  lemma UndatedRanksAtZero(blogs: seq<Blog>, i: nat, j: nat)
    requires i < |LatestBlogs(blogs)| && j < |LatestBlogs(blogs)|
    requires LatestBlogs(blogs)[i].createdAt.None?
    requires Timestamp(LatestBlogs(blogs)[j]) > 0
    ensures j < i
  {
    LatestBlogsOrderedFromInput(blogs);
  }

  // ---------------------------------------------------------------------
  // The card (lines 98-109, 17-28)
  // ---------------------------------------------------------------------

  /** Lines 105-106: the first 120 characters, and "..." when some were
      cut. */
  function Excerpt(d: string): (e: string)
    ensures |e| <= 123
    ensures |d| <= 120 ==> e == d
    ensures |d| > 120 ==> |e| == 123 && e[..120] == d[..120] && e[120..] == "..."
  {
    d[..Min(120, |d|)] + (if |d| > 120 then "..." else "")
  }

  /** Line 98: the excerpt is rendered only for a non-empty description. */
  function ShownExcerpt(description: Option<string>): (e: Option<string>)
    ensures e.None? <==> !TruthyText(description)
    ensures e.Some? ==> e.value == Excerpt(description.value)
  {
    if TruthyText(description) then Some(Excerpt(description.value)) else None
  }

  /** An excerpt always begins with the description, or with all of it. */
  lemma ExcerptStartsTheDescription(d: string)
    ensures IsPrefix(d[..Min(120, |d|)], Excerpt(d))
  {
  }

  /** `getCategoryColor` (lines 17-28). */
  function CategoryColor(category: string): (c: string)
    ensures category == "Partenariat" ==> c == "bg-blue-500"
    ensures category == "Formation" ==> c == "bg-orange-500"
    ensures category == "Actualité" ==> c == "bg-green-500"
    ensures category != "Partenariat" && category != "Formation" && category != "Actualité" ==> c == "bg-gray-500"
  {
    if category == "Partenariat" then "bg-blue-500"
    else if category == "Formation" then "bg-orange-500"
    else if category == "Actualité" then "bg-green-500"
    else "bg-gray-500"
  }

  /** The three categories have distinct colours, none of them the gray of
      an unknown category. */
  lemma CategoryColorsDistinct(unknown: string)
    requires unknown != "Partenariat" && unknown != "Formation" && unknown != "Actualité"
    ensures var colours := [CategoryColor("Partenariat"), CategoryColor("Formation"), CategoryColor("Actualité"), CategoryColor(unknown)];
      forall i, j :: 0 <= i < j < 4 ==> colours[i] != colours[j]
  {
  }
}
