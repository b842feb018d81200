/** The discussion feed of `src/components/DiscussionFeed.jsx`: posts filtered
    by tag tab, a composer that prepends posts, a like toggle per post, and
    deletion. The id of a new post (`crypto.randomUUID()`) is a parameter. */
module Discussion {
  import opened Text
  import opened Lists
  import opened Numbers

  datatype Post = Post(id: string, user: string, minutesAgo: int, likes: int, tag: string, body: string)

  /** The active tab, the posts, the composer's text and tag, and the ids the
      reader has liked. */
  datatype Feed = Feed(active: string, posts: seq<Post>, text: string, tag: string, likedIds: set<string>)

  /** The sample posts the feed starts from (`src/data/mockPosts.js`). */
  const MockPosts: seq<Post> := [
    Post("p1", "@ChipExpert", 2, 23, "Bullish", "Earnings beat predictable based on GPU shortage patterns…"),
    Post("p2", "@AI_is_future", 9, 18, "Bullish", "With inference demand rising, NVDA will keep ripping…"),
    Post("p3", "@Value_investor", 12, 4, "Bearish", "So overvalued on PE ratio. Careful here."),
    Post("p4", "@megatrader", 17, 8, "Bearish", "Unsustainable growth rate next quarter IMO.")
  ]

  const InitialFeed := Feed("All", MockPosts, "", "Bullish", {})

  /** The test `p => p.tag === tag`. */
  function TagIs(tag: string): Post -> bool {
    (p: Post) => p.tag == tag
  }

  /** The test `p => p.id !== id`. */
  function IdIsNot(id: string): Post -> bool {
    (p: Post) => p.id != id
  }

  /** The visible list: every post under `'All'`, otherwise exactly the posts
      carrying the active tag, in feed order. */
  function Visible(active: string, posts: seq<Post>): (r: seq<Post>)
    ensures active == "All" ==> r == posts
    ensures active != "All" ==> forall p :: p in r <==> p in posts && p.tag == active
    ensures active != "All" ==>
              forall p :: multiset(r)[p] == if p.tag == active then multiset(posts)[p] else 0
    ensures IsSubseq(r, posts)
  {
    if active == "All" then
      FilterKeepsAll(posts, (p: Post) => true);
      assert IsSubseq(Filter(posts, (p: Post) => true), posts);
      posts
    else Filter(posts, TagIs(active))
  }

  /** `submit`: blank text changes nothing; otherwise a post by `@you` with no
      likes, the selected tag and the trimmed text goes first, and the text is
      cleared. */
  function Submit(st: Feed, newId: string): (r: Feed)
    ensures IsBlank(st.text) ==> r == st
    ensures !IsBlank(st.text) ==>
              && r.posts == [Post(newId, "@you", 0, 0, st.tag, Trim(st.text))] + st.posts
              && r.text == "" && r.active == st.active && r.tag == st.tag && r.likedIds == st.likedIds
    ensures !IsBlank(st.text) ==> r.posts[0].body != [] && r.posts[1..] == st.posts
  {
    var trimmed := Trim(st.text);
    if trimmed == [] then st
    else st.(posts := [Post(newId, "@you", 0, 0, st.tag, trimmed)] + st.posts, text := "")
  }

  /** The new like count of a post the reader toggles: one more, or one fewer
      but never below zero. */
  function LikeCount(likes: int, liked: bool): (r: int)
    ensures r >= 0
    ensures !liked && likes >= 0 ==> r == likes + 1
    ensures liked && likes >= 1 ==> r == likes - 1
  {
    MaxInt(0, if liked then likes - 1 else likes + 1)
  }

  /** `like(id)`: every post with that id gets its toggled like count, every
      other post is untouched, and the id's membership in `likedIds` flips. */
  function Like(st: Feed, id: string): (r: Feed)
    ensures |r.posts| == |st.posts|
    ensures forall i :: 0 <= i < |st.posts| && st.posts[i].id != id ==> r.posts[i] == st.posts[i]
    ensures forall i :: 0 <= i < |st.posts| && st.posts[i].id == id ==>
              r.posts[i] == st.posts[i].(likes := LikeCount(st.posts[i].likes, id in st.likedIds))
    ensures forall i :: 0 <= i < |st.posts| && st.posts[i].id == id ==> r.posts[i].likes >= 0
    ensures id in r.likedIds <==> id !in st.likedIds
    ensures forall x :: x != id ==> (x in r.likedIds <==> x in st.likedIds)
    ensures r.active == st.active && r.text == st.text && r.tag == st.tag
  {
    var liked := id in st.likedIds;
    var posts := seq(|st.posts|, i requires 0 <= i < |st.posts| =>
      if st.posts[i].id != id then st.posts[i] else st.posts[i].(likes := LikeCount(st.posts[i].likes, liked)));
    st.(posts := posts, likedIds := if liked then st.likedIds - {id} else st.likedIds + {id})
  }

  /** Liking a post the reader has not liked, then liking it again, restores
      the feed when its like counts are not negative. */
  lemma LikeTwice(st: Feed, id: string)
    requires id !in st.likedIds
    requires forall i :: 0 <= i < |st.posts| && st.posts[i].id == id ==> st.posts[i].likes >= 0
    ensures Like(Like(st, id), id) == st
  {
    var once := Like(st, id);
    var twice := Like(once, id);
    assert twice.likedIds == st.likedIds;
    assert twice.posts == st.posts by {
      forall i | 0 <= i < |st.posts| ensures twice.posts[i] == st.posts[i] {
        if st.posts[i].id == id {
          assert once.posts[i].likes == st.posts[i].likes + 1;
        }
      }
    }
  }

  /** `deletePost(id)`: every post with that id goes, the others stay in
      order, and the id leaves `likedIds`. */
  function DeletePost(st: Feed, id: string): (r: Feed)
    ensures forall p :: p in r.posts <==> p in st.posts && p.id != id
    ensures forall p :: multiset(r.posts)[p] == if p.id != id then multiset(st.posts)[p] else 0
    ensures IsSubseq(r.posts, st.posts)
    ensures r.likedIds == st.likedIds - {id}
    ensures r.active == st.active && r.text == st.text && r.tag == st.tag
  {
    st.(posts := Filter(st.posts, IdIsNot(id)), likedIds := st.likedIds - {id})
  }

  /** Deleting an id no post has keeps every post. */
  lemma DeleteAbsentId(st: Feed, id: string)
    requires forall i :: 0 <= i < |st.posts| ==> st.posts[i].id != id
    ensures DeletePost(st, id).posts == st.posts
  {
    FilterKeepsAll(st.posts, IdIsNot(id));
  }

  /** A submitted post shows at the top of the current tab when the tab is
      `'All'` or its own tag, and the tab is otherwise unchanged. */
  lemma SubmitShowsOnItsTab(st: Feed, newId: string)
    requires !IsBlank(st.text)
    ensures var r := Submit(st, newId);
      var shown := st.active == "All" || st.active == st.tag;
      && (shown ==> Visible(r.active, r.posts) == [r.posts[0]] + Visible(st.active, st.posts))
      && (!shown ==> Visible(r.active, r.posts) == Visible(st.active, st.posts))
  {
    var r := Submit(st, newId);
    assert r.posts[1..] == st.posts;
    if st.active != "All" {
      assert TagIs(st.active)(r.posts[0]) <==> st.active == st.tag;
    }
  }
}
