/** The browser-side logic of the site: the phone-number mask, the
    required-field check run on every form submission, and the index
    arithmetic of the reviews slider. Fetch calls, DOM wiring, timers and
    pixel offsets are not modelled; events arrive as method calls. */
module Client {
  import opened Common

  function Min(a: int, b: int): int { if a <= b then a else b }

  /** `s.substring(start, end)` with `start <= end`: both ends are clamped
      to the length of `s`. */
  function Substring(s: string, start: nat, end: nat): string
    requires start <= end
  {
    s[Min(start, |s|)..Min(end, |s|)]
  }

  /** The first `n` characters of `s`, or all of them when there are fewer. */
  function Take(s: string, n: nat): string {
    s[..Min(n, |s|)]
  }

  // ---------------------------------------------------------------------
  // Phone mask

  /** The national number: one leading trunk or country digit, `7` or `8`,
      is dropped. */
  function NationalDigits(digits: string): (v: string)
    ensures |digits| > 0 && (digits[0] == '7' || digits[0] == '8') ==> digits == [digits[0]] + v
    ensures |digits| == 0 || (digits[0] != '7' && digits[0] != '8') ==> v == digits
  {
    if |digits| > 0 && (digits[0] == '7' || digits[0] == '8') then digits[1..] else digits
  }

  /** The text written back into the field for the national number `v`:
      `+7 (ddd) ddd-dd-dd`, each group present only once `v` reaches it. */
  function FormatPhone(v: string): (r: string)
    ensures |r| >= 3 && r[..3] == "+7 "
  {
    "+7 " + Group(v, "(", 0, 3) + Group(v, ") ", 3, 6) + Group(v, "-", 6, 8) + Group(v, "-", 8, 10)
  }

  /** The digits `v.substring(start, end)`, present once `v` has more than
      `start` digits. */
  function Digits(v: string, start: nat, end: nat): string
    requires start <= end
  {
    if |v| > start then Substring(v, start, end) else ""
  }

  /** One group of the mask: its separator and its digits, or nothing. */
  function Group(v: string, sep: string, start: nat, end: nat): string
    requires start <= end
  {
    if |v| > start then sep + Digits(v, start, end) else ""
  }

  /** The value of a `tel` input after the `input` handler has run on it. */
  function PhoneMask(value: string): (r: string)
    ensures DigitsOf(value) == [] ==> r == value
    ensures DigitsOf(value) != [] ==> |r| >= 3 && r[..3] == "+7 "
  {
    var digits := DigitsOf(value);
    if |digits| == 0 then value else FormatPhone(NationalDigits(digits))
  }

  /** The number of characters the mask writes for `n` national digits. */
  function MaskLength(n: nat): nat {
    3 + n
    + (if n > 0 then 1 else 0)
    + (if n > 3 then 2 else 0)
    + (if n > 6 then 1 else 0)
    + (if n > 8 then 1 else 0)
  }

  lemma DigitsOfSeparators()
    ensures DigitsOf("+7 ") == "7"
    ensures DigitsOf("(") == "" && DigitsOf(") ") == "" && DigitsOf("-") == ""
  {
    assert "+7 "[1..] == "7 ";
    assert "7 "[1..] == " ";
    assert ") "[1..] == " ";
  }

  /** A group reads back as its digits. */
  lemma GroupDigits(v: string, sep: string, start: nat, end: nat)
    requires start <= end
    requires DigitsOf(sep) == [] && AllDigits(v)
    ensures DigitsOf(Group(v, sep, start, end)) == Digits(v, start, end)
  {
    if |v| > start {
      DigitsOfConcat(sep, Digits(v, start, end));
      DigitsOfDigits(Digits(v, start, end));
    }
  }

  /** The groups the mask writes, read back in order, are the first ten
      national digits, and its separators add no digit but the leading 7. */
  lemma FormatPhoneDigits(v: string)
    requires AllDigits(v)
    ensures DigitsOf(FormatPhone(v)) == "7" + Take(v, 10)
  {
    var g1, g2, g3, g4 := Group(v, "(", 0, 3), Group(v, ") ", 3, 6), Group(v, "-", 6, 8), Group(v, "-", 8, 10);
    var d1, d2, d3, d4 := Digits(v, 0, 3), Digits(v, 3, 6), Digits(v, 6, 8), Digits(v, 8, 10);
    DigitsOfSeparators();
    GroupDigits(v, "(", 0, 3);
    GroupDigits(v, ") ", 3, 6);
    GroupDigits(v, "-", 6, 8);
    GroupDigits(v, "-", 8, 10);
    var x1 := "+7 " + g1;
    var x2 := x1 + g2;
    var x3 := x2 + g3;
    assert DigitsOf(x1) == "7" + d1 by { DigitsOfConcat("+7 ", g1); }
    assert DigitsOf(x2) == "7" + d1 + d2 by { DigitsOfConcat(x1, g2); }
    assert DigitsOf(x3) == "7" + d1 + d2 + d3 by { DigitsOfConcat(x2, g3); }
    assert DigitsOf(x3 + g4) == "7" + d1 + d2 + d3 + d4 by { DigitsOfConcat(x3, g4); }
    assert d1 + d2 + d3 + d4 == Take(v, 10) by { TakeGroups(v); }
    Regroup("7", d1, d2, d3, d4);
  }

  /** Helper: re-bracketing the five-part concatenation, kept apart so the
      proof above sees it as one fact. */
  lemma Regroup(a: string, b: string, c: string, d: string, e: string)
    ensures a + b + c + d + e == a + (b + c + d + e)
  {
  }

  /** The four groups together are the first ten digits. */
  lemma TakeGroups(v: string)
    ensures Digits(v, 0, 3) + Digits(v, 3, 6) + Digits(v, 6, 8) + Digits(v, 8, 10) == Take(v, 10)
  {
    var n := Min(10, |v|);
    if |v| <= 3 {
      assert Substring(v, 0, 3) == v[..n];
    } else if |v| <= 6 {
      assert v[..n] == v[..3] + v[3..n];
    } else if |v| <= 8 {
      assert v[..n] == v[..3] + v[3..6] + v[6..n];
    } else {
      assert v[..n] == v[..3] + v[3..6] + v[6..8] + v[8..n];
    }
  }

  /** Every digit the user typed beyond the tenth national digit is dropped:
      the output's digits are the country code 7 and at most ten national
      digits, and its length follows from how many there are. */
  lemma {:induction false} PhoneMaskDigits(value: string)
    requires DigitsOf(value) != []
    ensures var v := NationalDigits(DigitsOf(value));
      && DigitsOf(PhoneMask(value)) == "7" + Take(v, 10)
      && |PhoneMask(value)| == MaskLength(|Take(v, 10)|)
      && |Take(v, 10)| <= 10
  {
    var v := NationalDigits(DigitsOf(value));
    assert AllDigits(v);
    FormatPhoneDigits(v);
  }

  /** The mask writes three characters of prefix, the digits kept, and
      one separator character per group boundary reached. */
  lemma FormatPhoneLength(v: string)
    ensures |FormatPhone(v)| == MaskLength(|Take(v, 10)|)
  {
  }

  /** A full number is laid out as `+7 (ddd) ddd-dd-dd`. */
  lemma FullNumberLayout(v: string)
    requires |v| >= 10
    ensures FormatPhone(v) == "+7 (" + v[0..3] + ") " + v[3..6] + "-" + v[6..8] + "-" + v[8..10]
  {
    assert Group(v, "(", 0, 3) == "(" + v[0..3];
    assert "+7 " + ("(" + v[0..3]) == "+7 (" + v[0..3];
  }

  /** Only the first ten national digits reach the output. */
  lemma FormatPhoneTake(v: string)
    ensures FormatPhone(Take(v, 10)) == FormatPhone(v)
  {
    var t := Take(v, 10);
    assert Group(t, "(", 0, 3) == Group(v, "(", 0, 3);
    assert Group(t, ") ", 3, 6) == Group(v, ") ", 3, 6);
    assert Group(t, "-", 6, 8) == Group(v, "-", 6, 8);
    assert Group(t, "-", 8, 10) == Group(v, "-", 8, 10);
  }

  /** The handler runs on every `input` event, so it sees its own output
      again: masking a masked value changes nothing. */
  lemma {:induction false} PhoneMaskIdempotent(value: string)
    ensures PhoneMask(PhoneMask(value)) == PhoneMask(value)
  {
    if DigitsOf(value) != [] {
      var v := NationalDigits(DigitsOf(value));
      var r := PhoneMask(value);
      assert r == FormatPhone(v);
      assert AllDigits(v);
      FormatPhoneDigits(v);
      assert DigitsOf(r) == "7" + Take(v, 10);
      assert NationalDigits(DigitsOf(r)) == Take(v, 10);
      FormatPhoneTake(v);
    }
  }

  // ---------------------------------------------------------------------
  // Required-field check

  /** A field whose value is nothing but whitespace; `trim()` turns exactly
      these into the empty string (see `Strip`). */
  predicate Blank(s: string) {
    forall j :: 0 <= j < |s| ==> IsSpace(s[j])
  }

  /** A form may be submitted exactly when no required field is blank. */
  predicate FormValid(values: seq<string>) {
    forall i :: 0 <= i < |values| ==> !Blank(values[i])
  }

  /** The `submit` handler: it visits every required field, marks the blank
      ones red and clears the mark on the others, and lets the submission
      through only when none was blank. */
  method CheckRequired(values: seq<string>) returns (isValid: bool, marked: seq<bool>)
    ensures isValid <==> FormValid(values)
    ensures |marked| == |values|
    ensures forall i :: 0 <= i < |values| ==> marked[i] == Blank(values[i])
  {
    isValid := true;
    marked := [];
    for k := 0 to |values|
      invariant |marked| == k
      invariant forall i :: 0 <= i < k ==> marked[i] == Blank(values[i])
      invariant isValid <==> forall i :: 0 <= i < k ==> !Blank(values[i])
    {
      var blank := Strip(values[k]) == [];
      assert blank == Blank(values[k]);
      if blank {
        isValid := false;
      }
      marked := marked + [blank];
    }
  }

  // ---------------------------------------------------------------------
  // Reviews slider

  /** How many reviews fit side by side at a given window width. */
  function SlidesPerView(width: int): (n: int)
    ensures 1 <= n <= 3
    ensures n == 1 <==> width <= 768
    ensures n == 3 <==> width > 992
  {
    if width <= 768 then 1 else if width <= 992 then 2 else 3
  }

  /** A wider window never shows fewer reviews at once. */
  lemma SlidesPerViewMonotone(w1: int, w2: int)
    requires w1 <= w2
    ensures SlidesPerView(w1) <= SlidesPerView(w2)
  {
  }

  /** The last index at which a full window of reviews is still shown. */
  function MaxIndex(total: int, perView: int): (m: int)
    ensures m >= 0
    ensures total >= perView ==> m + perView == total
    ensures total <= perView ==> m == 0
  {
    if total - perView > 0 then total - perView else 0
  }

  /** One autoplay step: advance, or go back to the first review once the
      last index is reached. */
  function AutoplayNext(i: int, maxIndex: int): int {
    if i < maxIndex then i + 1 else 0
  }

  /** The index after `k` autoplay steps. */
  function AutoplayRun(i: int, maxIndex: int, k: nat): int {
    if k == 0 then i else AutoplayNext(AutoplayRun(i, maxIndex, k - 1), maxIndex)
  }

  /** Autoplay steps compose: `a` steps then `b` steps are `a + b` steps. */
  lemma {:induction false} AutoplayRunSplit(i: int, maxIndex: int, a: nat, b: nat)
    ensures AutoplayRun(i, maxIndex, a + b) == AutoplayRun(AutoplayRun(i, maxIndex, a), maxIndex, b)
  {
    if b > 0 {
      AutoplayRunSplit(i, maxIndex, a, b - 1);
    }
  }

  /** Below the last index every tick moves on by exactly one review. */
  lemma {:induction false} AutoplayAdvances(i: int, maxIndex: int, k: nat)
    requires 0 <= i && i + k <= maxIndex
    ensures AutoplayRun(i, maxIndex, k) == i + k
  {
    if k > 0 {
      AutoplayAdvances(i, maxIndex, k - 1);
    }
  }

  /** Autoplay cycles through every index: from any valid index it returns
      to that index after exactly `maxIndex + 1` ticks, having passed the
      last index and wrapped to the first on the way. */
  lemma AutoplayPeriod(i: int, maxIndex: int)
    requires 0 <= i <= maxIndex
    ensures AutoplayRun(i, maxIndex, maxIndex - i) == maxIndex
    ensures AutoplayRun(i, maxIndex, maxIndex - i + 1) == 0
    ensures AutoplayRun(i, maxIndex, maxIndex + 1) == i
  {
    AutoplayAdvances(i, maxIndex, maxIndex - i);
    AutoplayAdvances(0, maxIndex, i);
    AutoplayRunSplit(i, maxIndex, maxIndex - i + 1, i);
  }

  /** The slider's state: the index of the first review shown, the number
      of reviews per view, the bound the buttons, swipes and autoplay check,
      the hover flag and the last touch positions. */
  class ReviewSlider {
    const totalSlides: nat
    var currentIndex: int
    var slidesPerView: int
    var maxIndex: int
    var isHovering: bool
    var touchStartX: real
    var touchEndX: real

    /** The index never leaves [0, maxIndex]. */
    ghost predicate Valid()
      reads this
    {
      && totalSlides > 0
      && 1 <= slidesPerView <= 3
      && 0 <= currentIndex <= maxIndex
    }

    /** The bound matches the current number of reviews per view. */
    ghost predicate Synced()
      reads this
    {
      maxIndex == MaxIndex(totalSlides, slidesPerView)
    }

    /** The window never scrolls past the last full page of reviews. */
    ghost predicate InView()
      reads this
    {
      currentIndex <= MaxIndex(totalSlides, slidesPerView)
    }

    /** Set up once the page has loaded, with at least one review. */
    constructor (totalSlides: nat, width: int)
      requires totalSlides > 0
      ensures Valid() && Synced() && InView()
      ensures this.totalSlides == totalSlides && currentIndex == 0
      ensures slidesPerView == SlidesPerView(width)
      ensures maxIndex == MaxIndex(totalSlides, SlidesPerView(width))
      ensures !isHovering && touchStartX == 0.0 && touchEndX == 0.0
    {
      this.totalSlides := totalSlides;
      currentIndex := 0;
      slidesPerView := SlidesPerView(width);
      maxIndex := MaxIndex(totalSlides, SlidesPerView(width));
      isHovering := false;
      touchStartX := 0.0;
      touchEndX := 0.0;
    }

    /** The previous-button click. */
    method Prev()
      requires Valid()
      modifies this`currentIndex
      ensures Valid()
      ensures old(InView()) ==> InView()
      ensures currentIndex == if old(currentIndex) > 0 then old(currentIndex) - 1 else old(currentIndex)
    {
      if currentIndex > 0 {
        currentIndex := currentIndex - 1;
      }
    }

    /** The next-button click. */
    method Next()
      requires Valid()
      modifies this`currentIndex
      ensures Valid()
      ensures Synced() ==> InView()
      ensures currentIndex == if old(currentIndex) < maxIndex then old(currentIndex) + 1 else old(currentIndex)
    {
      if currentIndex < maxIndex {
        currentIndex := currentIndex + 1;
      }
    }

    method TouchStart(x: real)
      modifies this`touchStartX
      ensures touchStartX == x
    {
      touchStartX := x;
    }

    /** The end of a touch: a move of more than 50 pixels to the left shows
      the next reviews, one to the right the previous ones. */
    method TouchEnd(x: real)
      requires Valid()
      modifies this`touchEndX, this`currentIndex
      ensures Valid()
      ensures Synced() ==> InView()
      ensures touchEndX == x
      ensures var diff := touchStartX - x;
        currentIndex ==
          if diff > 50.0 && old(currentIndex) < maxIndex then old(currentIndex) + 1
          else if diff < -50.0 && old(currentIndex) > 0 then old(currentIndex) - 1
          else old(currentIndex)
    {
      touchEndX := x;
      HandleSwipe();
    }

    method HandleSwipe()
      requires Valid()
      modifies this`currentIndex
      ensures Valid()
      ensures Synced() ==> InView()
      ensures var diff := touchStartX - touchEndX;
        currentIndex ==
          if diff > 50.0 && old(currentIndex) < maxIndex then old(currentIndex) + 1
          else if diff < -50.0 && old(currentIndex) > 0 then old(currentIndex) - 1
          else old(currentIndex)
    {
      var swipeThreshold := 50.0;
      var diff := touchStartX - touchEndX;
      var magnitude := if diff < 0.0 then -diff else diff;
      if magnitude > swipeThreshold {
        if diff > 0.0 && currentIndex < maxIndex {
          currentIndex := currentIndex + 1;
        } else if diff < 0.0 && currentIndex > 0 {
          currentIndex := currentIndex - 1;
        }
      }
    }

    /** The debounced resize handler as written: the number per view and the
        index follow the new width, but the bound the other handlers check
        keeps the value computed at page load. */
    method OnResize(width: int)
      requires Valid()
      modifies this`slidesPerView, this`currentIndex
      ensures Valid()
      ensures slidesPerView == SlidesPerView(width)
      ensures old(slidesPerView) != SlidesPerView(width) ==> InView()
      ensures old(slidesPerView) != SlidesPerView(width) ==>
        currentIndex == Min(old(currentIndex), MaxIndex(totalSlides, SlidesPerView(width)))
      ensures old(slidesPerView) == SlidesPerView(width) ==> currentIndex == old(currentIndex)
      ensures old(slidesPerView) == SlidesPerView(width) && old(Synced()) ==> Synced()
    {
      var newSlidesPerView := SlidesPerView(width);
      if newSlidesPerView != slidesPerView {
        slidesPerView := newSlidesPerView;
        var newMaxIndex := MaxIndex(totalSlides, slidesPerView);
        currentIndex := Min(currentIndex, newMaxIndex);
      }
    }

    /** The resize handler with the bound recomputed alongside the number
        per view. */
    method OnResizeSynced(width: int)
      requires Valid()
      modifies this`slidesPerView, this`currentIndex, this`maxIndex
      ensures Valid() && Synced() && InView()
      ensures slidesPerView == SlidesPerView(width)
      ensures currentIndex == Min(old(currentIndex), MaxIndex(totalSlides, SlidesPerView(width)))
    {
      slidesPerView := SlidesPerView(width);
      maxIndex := MaxIndex(totalSlides, slidesPerView);
      currentIndex := Min(currentIndex, maxIndex);
    }

    /** One tick of the 2.5-second autoplay timer. */
    method AutoplayTick()
      requires Valid()
      modifies this`currentIndex
      ensures Valid()
      ensures Synced() ==> InView()
      ensures currentIndex ==
        if !isHovering && totalSlides > slidesPerView then AutoplayNext(old(currentIndex), maxIndex)
        else old(currentIndex)
    {
      if !isHovering && totalSlides > slidesPerView {
        if currentIndex < maxIndex {
          currentIndex := currentIndex + 1;
        } else {
          currentIndex := 0;
        }
      }
    }

    method MouseEnter()
      modifies this`isHovering
      ensures isHovering
    {
      isHovering := true;
    }

    method MouseLeave()
      modifies this`isHovering
      ensures !isHovering
    {
      isHovering := false;
    }
  }

  /** Five reviews loaded in a 700-pixel window (one per view), the window
      widened to 1200 pixels (three per view), then three clicks on next:
      the slider scrolls past the last full page. */
  method StaleMaxIndexWitness() returns (index: int, bound: int)
    ensures bound == MaxIndex(5, SlidesPerView(1200))
    ensures index > bound
  {
    var slider := new ReviewSlider(5, 700);
    slider.OnResize(1200);
    slider.Next();
    slider.Next();
    slider.Next();
    index := slider.currentIndex;
    bound := MaxIndex(slider.totalSlides, slider.slidesPerView);
  }

  /** The same run with the bound kept in step stops at the last full page. */
  method SyncedResizeRun() returns (index: int, bound: int)
    ensures bound == MaxIndex(5, SlidesPerView(1200))
    ensures index == bound
  {
    var slider := new ReviewSlider(5, 700);
    slider.OnResizeSynced(1200);
    slider.Next();
    slider.Next();
    slider.Next();
    index := slider.currentIndex;
    bound := MaxIndex(slider.totalSlides, slider.slidesPerView);
  }
}
