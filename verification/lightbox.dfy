/** The lightbox shared by the gallery pages: its state is the index of the
    image shown, or none when closed; next and previous cycle through the
    gallery. */
module Lightbox {
  import opened Optional

  type State = Option<nat>

  /** A closed lightbox, or one showing an image of a gallery of `len`. */
  predicate InRange(s: State, len: nat) {
    s.None? || s.value < len
  }

  /** `closeLightbox`: closed, whatever was shown. */
  function Close(s: State): (r: State)
    ensures r.None?
  {
    None
  }

  /** A thumbnail click: show image `index`. */
  function Open(index: nat): (r: State)
    ensures r.Some? && r.value == index
  {
    Some(index)
  }

  /** `showNext`: `(current + 1) % length`, closed stays closed. */
  function Next(s: State, len: nat): (r: State)
    requires len > 0
    ensures r.Some? <==> s.Some?
    ensures InRange(r, len)
    ensures InRange(s, len) && s.Some? ==>
      r.value == if s.value == len - 1 then 0 else s.value + 1
  {
    match s
    case None => None
    case Some(i) => Some((i + 1) % len)
  }

  /** `showPrev`: `(current - 1 + length) % length`, closed stays closed. */
  function Prev(s: State, len: nat): (r: State)
    requires len > 0
    ensures r.Some? <==> s.Some?
    ensures InRange(r, len)
    ensures InRange(s, len) && s.Some? ==>
      r.value == if s.value == 0 then len - 1 else s.value - 1
  {
    match s
    case None => None
    case Some(i) =>
      var j := i - 1 + len;
      assert j >= 0;
      Some(j % len)
  }

  /** The key listener, attached only while an image is shown. */
  function HandleKey(s: State, key: string, len: nat): (r: State)
    requires len > 0
    ensures s.None? ==> r == s
    ensures s.Some? && key == "Escape" ==> r.None?
    ensures s.Some? && key == "ArrowRight" ==> r == Next(s, len)
    ensures s.Some? && key == "ArrowLeft" ==> r == Prev(s, len)
    ensures key != "Escape" && key != "ArrowRight" && key != "ArrowLeft" ==> r == s
  {
    if s.None? then s
    else if key == "Escape" then Close(s)
    else if key == "ArrowRight" then Next(s, len)
    else if key == "ArrowLeft" then Prev(s, len)
    else s
  }

  /** Previous undoes next, and next undoes previous. */
  lemma NextPrevInverse(s: State, len: nat)
    requires len > 0 && InRange(s, len)
    ensures Prev(Next(s, len), len) == s
    ensures Next(Prev(s, len), len) == s
  {
  }

  /** `k` presses of next. */
  function Forward(s: State, len: nat, k: nat): (r: State)
    requires len > 0
    ensures InRange(s, len) ==> InRange(r, len)
    decreases k
  {
    if k == 0 then s else Forward(Next(s, len), len, k - 1)
  }

  lemma {:induction false} ForwardAdds(s: State, len: nat, a: nat, b: nat)
    requires len > 0
    ensures Forward(s, len, a + b) == Forward(Forward(s, len, a), len, b)
    decreases a
  {
    if a > 0 {
      ForwardAdds(Next(s, len), len, a - 1, b);
    }
  }

  /** Without reaching the end, next steps one image on. */
  lemma {:induction false} ForwardNoWrap(i: nat, len: nat, k: nat)
    requires i + k < len
    ensures Forward(Some(i), len, k) == Some(i + k)
    decreases k
  {
    if k > 0 {
      ForwardNoWrap(i + 1, len, k - 1);
    }
  }

  /** Next, pressed as many times as the gallery has images, comes back to
      the image it started from. */
  lemma NextCycle(s: State, len: nat)
    requires len > 0 && InRange(s, len)
    ensures Forward(s, len, len) == s
  {
    match s
    case None =>
      NoneStays(len, len);
    case Some(i) =>
      ForwardNoWrap(i, len, len - 1 - i);
      ForwardAdds(s, len, len - 1 - i, 1 + i);
      assert Forward(Some(len - 1), len, 1) == Some(0);
      ForwardAdds(Some(len - 1), len, 1, i);
      ForwardNoWrap(0, len, i);
  }

  lemma {:induction false} NoneStays(len: nat, k: nat)
    requires len > 0
    ensures Forward(None, len, k) == None
    decreases k
  {
    if k > 0 {
      NoneStays(len, k - 1);
    }
  }
}
