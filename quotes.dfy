/**
 * The quote list, the random quote picker and the image shuffle of the quotes library.
 */
module Quotes {
  import opened Random

  /** A quote shown on the goal card. */
  datatype Quote = Quote(text: string, author: string)

  const MotivationalQuotes: seq<Quote> := [
    Quote("No cap, you gotta lock in and stay focused on the grind. The bag ain't gonna secure itself.", "Hustle Mindset"),
    Quote("Respectfully, if you ain't putting in that work, don't be surprised when you stay mid. Lock in!", "Grind Culture"),
    Quote("It's giving main character energy when you lock in and ignore the opps. Stay toxic to negativity.", "Success Vibes"),
    Quote("Finna be great, no debate. When you lock in, the universe better watch out, fr fr.", "Winning Mentality"),
    Quote("Straight bussin' when you lock in and achieve your goals. That's real tea, no shade.", "Achievement Unlocked"),
    Quote("Sheeesh! When you lock in, you different. They sleep, you grind. Period, pooh.", "Grind Different"),
    Quote("On God, when you lock in and focus, you're literally that girl/guy. Big flex energy.", "Focus Mode"),
    Quote("It's the locking in for me. Rent was due yesterday, and the grind don't stop. We outside!", "Hustle Hard"),
    Quote("Deadass, when you lock in, you unlock levels they ain't even heard of yet. Stay toxic productive.", "Level Up"),
    Quote("Ain't no way you're not gonna succeed when you lock in. That's just facts, no printer.", "Success Mindset")
  ]

  /** The gallery images, in their declared order. */
  const Images: seq<string> := [
    "https://i.pinimg.com/474x/84/17/14/84171495621447c8dc672968e27a6cf4.jpg",
    "https://i.pinimg.com/474x/8c/9b/07/8c9b07e5f25b7776190bf9de4da60c47.jpg",
    "https://i.pinimg.com/474x/a5/e2/55/a5e255b0fe8d64fd9178b912069c13c4.jpg",
    "https://i.pinimg.com/474x/77/3d/e8/773de85e694e8f88ed08ff5509ae4355.jpg",
    "https://i.pinimg.com/474x/35/9a/c9/359ac9da2cd64de80476bd7f10f78e13.jpg",
    "https://i.pinimg.com/474x/2d/3b/57/2d3b57d36444ca96ad5aa7a0ffba15ec.jpg",
    "https://i.pinimg.com/474x/7b/3a/b2/7b3ab281297ae937887b08b75f775a9d.jpg",
    "https://i.pinimg.com/736x/e3/75/51/e375513bcedd98cce4026eb8ecdd6406.jpg",
    "https://i.pinimg.com/736x/7f/f6/a2/7ff6a216eeaf4f1f2517e0780453971f.jpg",
    "https://i.pinimg.com/474x/db/52/30/db5230cc9239e3e4a53c7b93785c3837.jpg",
    "https://i.pinimg.com/474x/53/a7/cf/53a7cf6366704c3dd4d4b47352052b5f.jpg",
    "https://i.pinimg.com/474x/bb/27/15/bb2715148748084d037f7d7b036402e6.jpg",
    "https://i.pinimg.com/474x/66/88/98/6688984d7dc04587997a249c77c2836e.jpg",
    "https://i.pinimg.com/474x/84/df/5f/84df5f068a75d0e67f4bac08c9f2df2f.jpg",
    "https://i.pinimg.com/474x/52/2e/2d/522e2df4da526f76711e067b971b7696.jpg",
    "https://i.pinimg.com/474x/f4/80/bb/f480bb585117978f638e148a5f38a558.jpg",
    "https://i.pinimg.com/474x/06/35/bf/0635bf6e3bbbe6d85b0f167c3ade5614.jpg",
    "https://i.pinimg.com/474x/87/43/e6/8743e6f81ca488f8c73715f314c5fb0f.jpg",
    "https://i.pinimg.com/736x/f0/0f/74/f00f747ad5747857791af751e4bdf36d.jpg",
    "https://i.pinimg.com/474x/4d/92/5f/4d925f966849fbf32abdf49567fd17b1.jpg",
    "https://i.pinimg.com/474x/03/af/dd/03afdde0dd654c2d1d2c21bc2efef986.jpg",
    "https://i.pinimg.com/474x/b1/45/08/b14508bd52f8ab1ec8dc0a111b9c1b22.jpg",
    "https://i.pinimg.com/474x/f4/8f/c1/f48fc1fbfd4189d90d4f62125cc6b540.jpg",
    "https://i.pinimg.com/474x/22/89/af/2289afd3e39dfa1409cb66ef9736259d.jpg",
    "https://i.pinimg.com/474x/8c/db/a8/8cdba8f9cecb0e56e7492ff7cef5670c.jpg",
    "https://i.pinimg.com/474x/21/91/7b/21917bbdabf30b41b3bab498d4a4f373.jpg",
    "https://i.pinimg.com/474x/9b/53/45/9b5345ff7610443dcb92b5156b96b874.jpg"
  ]

  /** getRandomQuote for the value r its one call of Math.random() returns. */
  function GetRandomQuote(r: real): (q: Quote)
    requires 0.0 <= r < 1.0
    ensures q in MotivationalQuotes
  {
    PickInRange(r, |MotivationalQuotes|);
    MotivationalQuotes[Pick(r, |MotivationalQuotes|)]
  }

  /** Every quote is the answer for some value of Math.random(): the k-th for r = k / 10. */
  lemma EveryQuoteReachable(k: nat)
    requires k < |MotivationalQuotes|
    ensures var r := k as real / |MotivationalQuotes| as real;
      0.0 <= r < 1.0 && GetRandomQuote(r) == MotivationalQuotes[k]
  {
    PickSelects(k, |MotivationalQuotes|);
  }

  /** The destructuring swap [s[i], s[j]] = [s[j], s[i]]. */
  function Swap<T>(s: seq<T>, i: nat, j: nat): (r: seq<T>)
    requires i < |s| && j < |s|
    ensures |r| == |s|
  {
    s[i := s[j]][j := s[i]]
  }

  /** The swap exchanges positions i and j and leaves every other position alone. */
  lemma SwapExchanges<T>(s: seq<T>, i: nat, j: nat)
    requires i < |s| && j < |s|
    ensures var r := Swap(s, i, j);
      && r[i] == s[j] && r[j] == s[i]
      && forall k :: 0 <= k < |s| && k != i && k != j ==> r[k] == s[k]
  {
  }

  lemma SwapPermutes<T>(s: seq<T>, i: nat, j: nat)
    requires i < |s| && j < |s|
    ensures multiset(Swap(s, i, j)) == multiset(s)
  {
    var u := s[i := s[j]];
    assert multiset(u) == multiset(s) - multiset{s[i]} + multiset{s[j]};
    assert multiset(u[j := s[i]]) == multiset(u) - multiset{u[j]} + multiset{s[i]};
  }

  /**
   * The shuffle loop from index i down to 1, the n-th call of Math.random() picking the partner
   * j in [0, i] of the first swap.
   */
  function ShuffleFrom<T>(s: seq<T>, i: nat, draw: nat -> real, n: nat): (r: seq<T>)
    requires ValidDraws(draw) && (i == 0 || i < |s|)
    decreases i
  {
    if i == 0 then s
    else
      var j := Pick(Draw(draw, n), i + 1);
      PickInRange(Draw(draw, n), i + 1);
      ShuffleFrom(Swap(s, i, j), i - 1, draw, n + 1)
  }

  /** The first index the loop visits: length - 1, where an empty list runs no iteration. */
  function LastIndex(n: nat): nat
  {
    if n == 0 then 0 else n - 1
  }

  /** The whole Fisher-Yates shuffle of s, its calls of Math.random() being the draws from n on. */
  function FisherYates<T>(s: seq<T>, draw: nat -> real, n: nat): seq<T>
    requires ValidDraws(draw)
  {
    ShuffleFrom(s, LastIndex(|s|), draw, n)
  }

  /** The shuffle only reorders: same length, same elements with the same multiplicities. */
  lemma {:induction false} ShuffleFromPermutes<T>(s: seq<T>, i: nat, draw: nat -> real, n: nat)
    requires ValidDraws(draw) && (i == 0 || i < |s|)
    ensures |ShuffleFrom(s, i, draw, n)| == |s|
    ensures multiset(ShuffleFrom(s, i, draw, n)) == multiset(s)
    decreases i
  {
    if i > 0 {
      var j := Pick(Draw(draw, n), i + 1);
      PickInRange(Draw(draw, n), i + 1);
      SwapPermutes(s, i, j);
      ShuffleFromPermutes(Swap(s, i, j), i - 1, draw, n + 1);
    }
  }

  lemma FisherYatesPermutes<T>(s: seq<T>, draw: nat -> real, n: nat)
    requires ValidDraws(draw)
    ensures |FisherYates(s, draw, n)| == |s| && multiset(FisherYates(s, draw, n)) == multiset(s)
  {
    ShuffleFromPermutes(s, LastIndex(|s|), draw, n);
  }

  /**
   * The swap partner drawn by the m-th call of Math.random(), made at iteration
   * i = last - (m - n), lies in [0, i], so every swap stays inside the list.
   */
  lemma SwapPartnersInRange(draw: nat -> real, n: nat, last: nat)
    requires ValidDraws(draw)
    ensures forall m: nat :: n <= m < n + last ==>
      0 <= Pick(Draw(draw, m), last - (m - n) + 1) <= last - (m - n)
  {
    forall m: nat | n <= m < n + last
      ensures 0 <= Pick(Draw(draw, m), last - (m - n) + 1) <= last - (m - n)
    {
      PickInRange(Draw(draw, m), last - (m - n) + 1);
    }
  }

  /** Positions above the loop's current index are final: the loop never touches them again. */
  lemma {:induction false} ShuffleFromKeepsTail<T>(s: seq<T>, i: nat, draw: nat -> real, n: nat)
    requires ValidDraws(draw) && i < |s|
    ensures var r := ShuffleFrom(s, i, draw, n);
      |r| == |s| && r[i + 1..] == s[i + 1..]
    decreases i
  {
    ShuffleFromPermutes(s, i, draw, n);
    if i > 0 {
      var j := Pick(Draw(draw, n), i + 1);
      PickInRange(Draw(draw, n), i + 1);
      var t := Swap(s, i, j);
      ShuffleFromKeepsTail(t, i - 1, draw, n + 1);
      assert t[i + 1..] == s[i + 1..];
    }
  }

  /**
   * shuffleImages on any list: copy it into a fresh array, then for i from length - 1 down to
   * 1 swap element i with the element at a drawn index in [0, i]. The input is only read; the
   * calls of Math.random() are the draws from next on, one per iteration.
   */
  method Shuffle<T>(items: seq<T>, random: nat -> real, next: nat) returns (shuffled: seq<T>, after: nat)
    requires ValidDraws(random)
    ensures shuffled == FisherYates(items, random, next)
    ensures after == next + LastIndex(|items|)
  {
    var a := new T[|items|](k requires 0 <= k < |items| => items[k]);
    assert a[..] == items;
    after := next;
    var i: nat := LastIndex(|items|);
    ghost var last := i;
    while i > 0
      invariant i <= last && (i == 0 || i < a.Length) && a.Length == |items|
      invariant after == next + (last - i)
      invariant ShuffleFrom(a[..], i, random, after) == FisherYates(items, random, next)
      decreases i
    {
      var j := Pick(Draw(random, after), i + 1);
      PickInRange(Draw(random, after), i + 1);
      ghost var before := a[..];
      a[i], a[j] := a[j], a[i];
      assert a[..] == Swap(before, i, j);
      after := after + 1;
      i := i - 1;
    }
    shuffled := a[..];
  }

  /** shuffleImages: the gallery images in a random order; Images itself stays as declared. */
  method ShuffleImages(random: nat -> real, next: nat) returns (shuffled: seq<string>, after: nat)
    requires ValidDraws(random)
    ensures shuffled == FisherYates(Images, random, next)
    ensures |shuffled| == |Images| && multiset(shuffled) == multiset(Images)
    ensures after == next + |Images| - 1
  {
    shuffled, after := Shuffle(Images, random, next);
    FisherYatesPermutes(Images, random, next);
  }
}
