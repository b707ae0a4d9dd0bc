/** The Instagram feed section: the posts kept from the API answer, the caption truncation
    used in the cards, and the loading, empty and error views of the feed container. */
module InstagramFeed {
  import opened Common

  /** The number of posts the feed keeps. */
  const MaxPosts: nat := 6
  /** The caption lengths used by a card: the image `alt` and the caption paragraph. */
  const AltLength: int := 50
  const CaptionLength: int := 100

  /** `truncateText(text, maxLength)`; `None` is an absent caption. */
  function TruncateText(text: Option<string>, maxLength: int): (r: string)
    ensures !Present(text) ==> r == ""
    ensures Present(text) && |text.value| <= maxLength ==> r == text.value
    ensures Present(text) && |text.value| > maxLength ==>
              var cut := if maxLength < 0 then 0 else maxLength;
              r == Trim(text.value[..cut]) + "..."
  {
    if !Present(text) then ""
    else if |text.value| <= maxLength then text.value
    else
      // `substring` clamps a negative end to 0.
      var cut := if maxLength < 0 then 0 else maxLength;
      Trim(text.value[..cut]) + "..."
  }

  /** The result never exceeds the limit by more than the ellipsis, and a shortened caption
      is a piece of the original's first `maxLength` characters followed by `...`. */
  lemma TruncateBounds(text: Option<string>, maxLength: int)
    ensures |TruncateText(text, maxLength)| <= (if maxLength < 0 then 0 else maxLength) + 3
    ensures Present(text) && |text.value| > maxLength ==>
              var r := TruncateText(text, maxLength);
              var cut := if maxLength < 0 then 0 else maxLength;
              |r| >= 3 && r[|r| - 3..] == "..." &&
              exists i, j :: 0 <= i <= j <= cut && r[..|r| - 3] == text.value[i..j]
  {
    if Present(text) && |text.value| > maxLength {
      var cut := if maxLength < 0 then 0 else maxLength;
      var head := text.value[..cut];
      TrimInfix(head);
      var r := TruncateText(text, maxLength);
      assert r == Trim(head) + "...";
      assert r[..|r| - 3] == Trim(head);
      var i, j :| 0 <= i <= j <= |head| && Trim(head) == head[i..j];
      assert head[i..j] == text.value[i..j];
    }
  }

  /** A post as the Graph API returns it; the caption may be absent. */
  datatype RawPost = RawPost(id: string, mediaUrl: string, caption: Option<string>, permalink: string, timestamp: string)

  /** A post as the feed keeps it. */
  datatype Post = Post(id: string, imageUrl: string, caption: string, permalink: string, timestamp: string)

  function KeepPost(p: RawPost): Post
  {
    Post(p.id, p.mediaUrl, if Present(p.caption) then p.caption.value else "", p.permalink, p.timestamp)
  }

  /** `data.data.slice(0, 6).map(...)`. */
  function SelectPosts(raw: seq<RawPost>): (r: seq<Post>)
    ensures |r| == if |raw| < MaxPosts then |raw| else MaxPosts
  {
    var kept := if |raw| < MaxPosts then raw else raw[..MaxPosts];
    seq(|kept|, i requires 0 <= i < |kept| => KeepPost(kept[i]))
  }

  /** The kept posts are the first six in order, with their fields carried over and a missing
      caption replaced by the empty string. */
  lemma SelectPostsOrder(raw: seq<RawPost>)
    ensures forall i :: 0 <= i < |SelectPosts(raw)| ==>
              var p := SelectPosts(raw)[i];
              && p.id == raw[i].id && p.imageUrl == raw[i].mediaUrl
              && p.permalink == raw[i].permalink && p.timestamp == raw[i].timestamp
              && (raw[i].caption.None? ==> p.caption == "")
              && (raw[i].caption.Some? ==> p.caption == raw[i].caption.value)
    ensures |raw| >= MaxPosts ==> |SelectPosts(raw)| == MaxPosts
  {
    var kept := if |raw| < MaxPosts then raw else raw[..MaxPosts];
    forall i | 0 <= i < |SelectPosts(raw)|
      ensures SelectPosts(raw)[i] == KeepPost(raw[i])
    {
      assert kept[i] == raw[i];
    }
  }

  /** One rendered card: the link, the image `alt` and the caption text. */
  datatype Card = Card(permalink: string, imageUrl: string, alt: string, text: string)

  function CardFor(p: Post): Card
  {
    Card(p.permalink, p.imageUrl, TruncateText(Some(p.caption), AltLength), TruncateText(Some(p.caption), CaptionLength))
  }

  /** What the feed container shows. */
  datatype View = Untouched | EmptyState | ErrorState | Grid(cards: seq<Card>)

  /** `renderPosts` over these posts: the empty state without posts, one card per post otherwise. */
  function Rendered(posts: seq<Post>): (v: View)
    ensures v.EmptyState? <==> posts == []
    ensures v.Grid? ==> |v.cards| == |posts|
  {
    if |posts| == 0 then EmptyState
    else Grid(seq(|posts|, i requires 0 <= i < |posts| => CardFor(posts[i])))
  }

  /** Every card's texts keep within their limits plus the ellipsis. */
  lemma CardTextBounds(posts: seq<Post>)
    ensures var v := Rendered(posts);
            v.Grid? ==> forall i :: 0 <= i < |v.cards| ==>
              |v.cards[i].alt| <= AltLength + 3 && |v.cards[i].text| <= CaptionLength + 3
  {
    var v := Rendered(posts);
    if v.Grid? {
      forall i | 0 <= i < |v.cards|
        ensures |v.cards[i].alt| <= AltLength + 3 && |v.cards[i].text| <= CaptionLength + 3
      {
        TruncateBounds(Some(posts[i].caption), AltLength);
        TruncateBounds(Some(posts[i].caption), CaptionLength);
      }
    }
  }

  class Feed {
    /** Whether `#instagram-feed` exists. */
    const hasContainer: bool
    /** The access token of the configuration; the shipped configuration has none. */
    const accessToken: Option<string>
    var posts: seq<Post>
    var isLoading: bool
    var view: View

    constructor (hasContainer: bool, accessToken: Option<string>)
      ensures this.hasContainer == hasContainer && this.accessToken == accessToken
      ensures posts == [] && !isLoading && view == Untouched
    {
      this.hasContainer := hasContainer;
      this.accessToken := accessToken;
      posts := [];
      isLoading := false;
      view := Untouched;
    }

    /** `loadPosts`: `response` is the outcome of the API request, `None` when the request,
        its status or its payload fails. `crashed` is the `TypeError` that `showError` raises
        out of the `catch` when there is no container; `isLoading` is reset either way. */
    method LoadPosts(response: Option<seq<RawPost>>) returns (crashed: bool)
      modifies this`posts, this`isLoading, this`view
      ensures !isLoading
      ensures crashed <==> Present(accessToken) && response.None? && !hasContainer
      ensures !Present(accessToken) ==> posts == [] && view == old(view)
      ensures Present(accessToken) && response.Some? ==> posts == SelectPosts(response.value) && view == old(view)
      ensures Present(accessToken) && response.None? ==>
                posts == old(posts) && view == (if hasContainer then ErrorState else old(view))
    {
      isLoading := true;
      crashed := false;
      if Present(accessToken) {
        if response.Some? {
          posts := SelectPosts(response.value);
        } else if hasContainer {
          ShowError();
        } else {
          crashed := true;
        }
      } else {
        posts := [];
      }
      // `finally`.
      isLoading := false;
    }

    /** `showError`. */
    method ShowError()
      requires hasContainer
      modifies this`view
      ensures view == ErrorState
    {
      view := ErrorState;
    }

    /** `renderPosts`, which writes into the container. */
    method RenderPosts()
      requires hasContainer
      modifies this`view
      ensures view == Rendered(posts)
    {
      if |posts| == 0 {
        view := EmptyState;
        return;
      }
      var cards: seq<Card> := [];
      var i := 0;
      while i < |posts|
        invariant 0 <= i <= |posts|
        invariant |cards| == i
        invariant forall j :: 0 <= j < i ==> cards[j] == CardFor(posts[j])
      {
        cards := cards + [CardFor(posts[i])];
        i := i + 1;
      }
      view := Grid(cards);
    }

    /** `init`: load, then render. The error view of a failed load never survives it: the
        render that follows replaces it with the posts kept from before, or the empty state. */
    method Init(response: Option<seq<RawPost>>)
      modifies this`posts, this`isLoading, this`view
      ensures !hasContainer ==> posts == old(posts) && isLoading == old(isLoading) && view == old(view)
      ensures hasContainer ==> !isLoading && view == Rendered(posts) && view != ErrorState
      ensures hasContainer && !Present(accessToken) ==> posts == [] && view == EmptyState
      ensures hasContainer && Present(accessToken) && response.Some? ==> posts == SelectPosts(response.value)
      ensures hasContainer && Present(accessToken) && response.None? ==> posts == old(posts)
    {
      if !hasContainer {
        return;
      }
      var _ := LoadPosts(response);
      RenderPosts();
    }
  }
}
