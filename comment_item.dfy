/**
 * components/comments/comment-item.tsx: the like and dislike buttons of one
 * comment, and the initials shown when the author has no avatar.
 */
module CommentItem {
  import opened Text

  /** The button state: which button is pressed and the counts shown. */
  datatype Buttons = Buttons(liked: bool, disliked: bool, likes: int, dislikes: int)

  function Initial(likes: int, dislikes: int): Buttons {
    Buttons(false, false, likes, dislikes)
  }

  /** `handleLike`: pressing a pressed button releases it; pressing a free one
      presses it and releases the other. */
  function Like(b: Buttons): Buttons {
    if b.liked then b.(liked := false, likes := b.likes - 1)
    else if b.disliked then Buttons(true, false, b.likes + 1, b.dislikes - 1)
    else b.(liked := true, likes := b.likes + 1)
  }

  /** `handleDislike`. */
  function Dislike(b: Buttons): Buttons {
    if b.disliked then b.(disliked := false, dislikes := b.dislikes - 1)
    else if b.liked then Buttons(false, true, b.likes - 1, b.dislikes + 1)
    else b.(disliked := true, dislikes := b.dislikes + 1)
  }

  /** The two buttons exchanged. */
  function Swap(b: Buttons): Buttons {
    Buttons(b.disliked, b.liked, b.dislikes, b.likes)
  }

  /** Disliking is liking with the roles of the buttons exchanged. */
  lemma DislikeMirrorsLike(b: Buttons)
    ensures Dislike(b) == Swap(Like(Swap(b)))
  {
  }

  /** At most one button is pressed, and each count is its initial value
      plus one while its button is pressed. */
  predicate Consistent(b: Buttons, initialLikes: int, initialDislikes: int) {
    && !(b.liked && b.disliked)
    && b.likes == initialLikes + (if b.liked then 1 else 0)
    && b.dislikes == initialDislikes + (if b.disliked then 1 else 0)
  }

  datatype Click = LikeClick | DislikeClick

  /** The state after a sequence of clicks. */
  function Run(b: Buttons, clicks: seq<Click>): Buttons
    decreases |clicks|
  {
    if clicks == [] then b
    else Run(if clicks[0] == LikeClick then Like(b) else Dislike(b), clicks[1..])
  }

  /** Whatever the clicks, the buttons never both end up pressed and the
      counts stay one above the initial ones at most. */
  lemma {:induction false} ClicksKeepConsistent(b: Buttons, initialLikes: int, initialDislikes: int, clicks: seq<Click>)
    requires Consistent(b, initialLikes, initialDislikes)
    ensures Consistent(Run(b, clicks), initialLikes, initialDislikes)
    decreases |clicks|
  {
    if clicks != [] {
      var next := if clicks[0] == LikeClick then Like(b) else Dislike(b);
      assert Consistent(next, initialLikes, initialDislikes);
      ClicksKeepConsistent(next, initialLikes, initialDislikes, clicks[1..]);
    }
  }

  /** From the initial state every click sequence ends in a consistent state. */
  lemma AnyClicksFromStart(likes: int, dislikes: int, clicks: seq<Click>)
    ensures Consistent(Run(Initial(likes, dislikes), clicks), likes, dislikes)
  {
    ClicksKeepConsistent(Initial(likes, dislikes), likes, dislikes, clicks);
  }

  /** Two clicks on the same button restore the state, except that a press
      first releases the other button, which stays released. */
  lemma ClickTwice(b: Buttons)
    requires !(b.liked && b.disliked)
    ensures Like(Like(b)) == if b.disliked then b.(disliked := false, dislikes := b.dislikes - 1) else b
    ensures Dislike(Dislike(b)) == if b.liked then b.(liked := false, likes := b.likes - 1) else b
  {
  }

  /** The component's state, updated in place by the two click handlers. */
  class CommentItemState {
    var liked: bool
    var disliked: bool
    var likes: int
    var dislikes: int
    const initialLikes: int
    const initialDislikes: int

    function Current(): Buttons
      reads this
    {
      Buttons(liked, disliked, likes, dislikes)
    }

    predicate Valid()
      reads this
    {
      Consistent(Current(), initialLikes, initialDislikes)
    }

    /** `useState(false)` twice and the comment's own counts. */
    constructor(commentLikes: int, commentDislikes: int)
      ensures Current() == Initial(commentLikes, commentDislikes)
      ensures initialLikes == commentLikes && initialDislikes == commentDislikes
      ensures Valid()
    {
      liked, disliked := false, false;
      likes, dislikes := commentLikes, commentDislikes;
      initialLikes, initialDislikes := commentLikes, commentDislikes;
    }

    method HandleLike()
      requires Valid()
      modifies this
      ensures Valid()
      ensures Current() == Like(old(Current()))
    {
      if liked {
        liked := false;
        likes := likes - 1;
      } else {
        liked := true;
        likes := likes + 1;
        if disliked {
          disliked := false;
          dislikes := dislikes - 1;
        }
      }
    }

    method HandleDislike()
      requires Valid()
      modifies this
      ensures Valid()
      ensures Current() == Dislike(old(Current()))
    {
      if disliked {
        disliked := false;
        dislikes := dislikes - 1;
      } else {
        disliked := true;
        dislikes := dislikes + 1;
        if liked {
          liked := false;
          likes := likes - 1;
        }
      }
    }
  }

  // ---------------------------------------------------------------------------
  // Initials: the first character of each white-space separated word,
  // upper-cased, at most two of them
  // ---------------------------------------------------------------------------

  /** `map(word => word[0]).join("")`: an empty word contributes nothing. */
  function FirstChars(words: seq<string>): string {
    if words == [] then []
    else (if words[0] == [] then [] else [words[0][0]]) + FirstChars(words[1..])
  }

  /** The characters that begin a word: not white space, and first or right
      after white space. `atStart` says whether a word may begin here. */
  function WordStarts(s: string, atStart: bool): (r: string)
    ensures forall i :: 0 <= i < |r| ==> !IsJsSpace(r[i])
    ensures |r| <= |s|
  {
    if s == [] then []
    else (if atStart && !IsJsSpace(s[0]) then [s[0]] else []) + WordStarts(s[1..], IsJsSpace(s[0]))
  }

  /** The first characters of the pieces are exactly the word starts. */
  lemma {:induction false} FirstCharsAreWordStarts(s: string)
    ensures FirstChars(Split(s, IsJsSpace)) == WordStarts(s, true)
    ensures FirstChars(Split(s, IsJsSpace)[1..]) == WordStarts(s, false)
  {
    if s != [] {
      var rest := Split(s[1..], IsJsSpace);
      FirstCharsAreWordStarts(s[1..]);
      if IsJsSpace(s[0]) {
        assert Split(s, IsJsSpace) == [""] + rest;
        assert ([""] + rest)[1..] == rest;
      } else {
        var ps := [[s[0]] + rest[0]] + rest[1..];
        assert Split(s, IsJsSpace) == ps;
        assert ps[1..] == rest[1..];
        assert FirstChars(ps) == [s[0]] + FirstChars(rest[1..]);
      }
    }
  }

  function Initials(name: string): (r: string)
    ensures |r| <= 2
    ensures r == Take(Upper(WordStarts(name, true)), 2)
  {
    FirstCharsAreWordStarts(name);
    Take(Upper(FirstChars(Split(name, IsJsSpace))), 2)
  }

  /** Two words give their two upper-cased first letters. */
  lemma TwoWordInitials()
    ensures Initials("a b") == "AB"
  {
    assert WordStarts(" b", false) == "b";
    assert WordStarts("a b", true) == "ab";
    assert Upper("ab") == "AB";
  }
}
