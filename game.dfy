/** The round lifecycle of the `Game` component: round initialisation from the
    catalog, selection of option images, evaluation of a pair, the delayed
    reset after a wrong pair, and the "Next Round" button.

    Each React state variable is a field. A handler that calls several setters
    updates those fields in one method. The environment calls the methods: a
    click on an option, the expiry of the one-second timer scheduled after a
    wrong pair, a click on "Next Round", or the arrival of the catalog after
    it has been fetched. */
module Game {
  import opened Random
  import opened Catalog
  import opened Shuffler
  import opened Guess

  /** The three values the `message` state takes: none, the success message
      after a correct pair, and the retry message after a wrong pair. */
  datatype Message = NoMessage | CorrectMessage | IncorrectMessage

  /** The text shown for a message. */
  function MessageText(m: Message): string
  {
    match m
    case NoMessage => ""
    case CorrectMessage => "Correct! You've identified both the content and style images."
    case IncorrectMessage => "Incorrect. Try again!"
  }

  /** No image occurs twice in a list. */
  predicate NoDuplicates(s: seq<Ident>)
  {
    s == [] || (s[0] !in s[1..] && NoDuplicates(s[1..]))
  }

  /** Two positions of a list without duplicates hold different images. */
  lemma {:induction false} NoDuplicatesAt(s: seq<Ident>, i: nat, j: nat)
    requires NoDuplicates(s) && i < j < |s|
    ensures s[i] != s[j]
  {
    if i == 0 {
      assert s[j] == s[1..][j - 1];
    } else {
      NoDuplicatesAt(s[1..], i - 1, j - 1);
    }
  }

  /** Appending an image that is not yet in the list keeps it duplicate-free:
      this is what the duplicate check of a click guarantees. */
  lemma {:induction false} AppendFreshKeepsNoDuplicates(s: seq<Ident>, x: Ident)
    requires NoDuplicates(s) && x !in s
    ensures NoDuplicates(s + [x])
  {
    if s != [] {
      assert (s + [x])[1..] == s[1..] + [x];
      AppendFreshKeepsNoDuplicates(s[1..], x);
    }
  }

  /** The option order a round shows: the entry's four options, shuffled with
      the draws after the one that chose the entry. */
  function RoundOptions(o: Options, draws: seq<Draw>): seq<Ident>
    requires |draws| >= 3
  {
    Shuffled(OptionList(o), draws)
  }

  /** A list without duplicates holds each element at most once. */
  lemma {:induction false} NoDuplicatesCountsAtMostOne(s: seq<Ident>, x: Ident)
    requires NoDuplicates(s)
    ensures multiset(s)[x] <= 1
  {
    if s != [] {
      assert s == [s[0]] + s[1..];
      NoDuplicatesCountsAtMostOne(s[1..], x);
      if x == s[0] {
        assert x !in s[1..];
        assert x !in multiset(s[1..]);
      }
    }
  }

  /** A list that holds each element at most once has no duplicates. */
  lemma {:induction false} CountsAtMostOneGiveNoDuplicates(t: seq<Ident>)
    requires forall x :: multiset(t)[x] <= 1
    ensures NoDuplicates(t)
  {
    if t != [] {
      assert t == [t[0]] + t[1..];
      forall x ensures multiset(t[1..])[x] <= 1 {
        assert multiset(t)[x] == multiset([t[0]])[x] + multiset(t[1..])[x];
      }
      assert multiset(t)[t[0]] == 1 + multiset(t[1..])[t[0]];
      assert t[0] !in multiset(t[1..]);
      CountsAtMostOneGiveNoDuplicates(t[1..]);
    }
  }

  /** A permutation of a list without duplicates has no duplicates. */
  lemma PermutationKeepsNoDuplicates(s: seq<Ident>, t: seq<Ident>)
    requires NoDuplicates(s) && multiset(s) == multiset(t)
    ensures NoDuplicates(t)
  {
    forall x ensures multiset(t)[x] <= 1 {
      NoDuplicatesCountsAtMostOne(s, x);
    }
    CountsAtMostOneGiveNoDuplicates(t);
  }

  /** `t` lists the four options of an entry in some order. */
  ghost predicate IsOrderingOf(t: seq<Ident>, o: Options)
  {
    |t| == 4 && multiset(t) == multiset(OptionList(o))
  }

  /** Any ordering of a well-formed entry's options holds each option exactly
      once, and nothing else. */
  lemma PermutedOptionsHoldEachOnce(o: Options, t: seq<Ident>)
    requires DistinctOptions(o) && IsOrderingOf(t, o)
    ensures |t| == 4 && NoDuplicates(t)
    ensures forall x :: x in t <==> x in OptionList(o)
    ensures multiset(t)[o.content] == 1 && multiset(t)[o.style] == 1
  {
    var l := OptionList(o);
    assert |t| == |multiset(t)| == |multiset(l)| == 4;
    assert l[1..][1..][1..][1..] == [];
    assert NoDuplicates(l[1..][1..][1..]);
    assert NoDuplicates(l[1..][1..]);
    assert NoDuplicates(l[1..]);
    assert NoDuplicates(l);
    PermutationKeepsNoDuplicates(l, t);
    NoDuplicatesCountsAtMostOne(t, o.content);
    NoDuplicatesCountsAtMostOne(t, o.style);
    forall x ensures x in t <==> x in l {
      assert x in t <==> x in multiset(t);
      assert x in l <==> x in multiset(l);
    }
  }

  /** The shuffled options of a well-formed entry contain each option exactly
      once, and in particular the content and the style image once each. */
  lemma RoundOptionsHoldEachOptionOnce(o: Options, draws: seq<Draw>)
    requires DistinctOptions(o) && |draws| >= 3
    ensures |RoundOptions(o, draws)| == 4
    ensures NoDuplicates(RoundOptions(o, draws))
    ensures forall x :: x in RoundOptions(o, draws) <==> x in OptionList(o)
    ensures multiset(RoundOptions(o, draws))[o.content] == 1
    ensures multiset(RoundOptions(o, draws))[o.style] == 1
  {
    var r := RoundOptions(o, draws);
    ShuffledIsPermutation(OptionList(o), draws);
    PermutedOptionsHoldEachOnce(o, r);
  }

  /** Shuffles a fresh array `[content, style, decoy1, decoy2]` in place and
      returns its contents: the option order of a new round. */
  method ShuffleOptions(o: Options, draws: seq<Draw>) returns (r: seq<Ident>)
    requires |draws| >= 3
    ensures r == RoundOptions(o, draws)
    ensures IsOrderingOf(r, o)
  {
    var options := new Ident[4][o.content, o.style, o.decoy1, o.decoy2];
    assert options[..] == OptionList(o);
    var shuffled := Shuffle(options, draws);
    r := shuffled[..];
    ShuffledIsPermutation(OptionList(o), draws);
  }

  /** How the selection, the message, the "Next Round" button and the pending
      reset agree: picks are distinct; no message means at most one pick; the
      success message goes with an enabled button and a correct first pair;
      the retry message goes with a single pending reset and a wrong first
      pair. */
  ghost predicate SelectionAgrees(selected: seq<Ident>, message: Message, nextRoundEnabled: bool,
                                  pendingResets: nat, content: Ident, style: Ident)
  {
    && NoDuplicates(selected)
    && (message == NoMessage ==> |selected| < 2)
    && (nextRoundEnabled <==> message == CorrectMessage)
    && (nextRoundEnabled ==> |selected| >= 2 && IsCorrect(selected[..2], content, style))
    && (message == IncorrectMessage <==> pendingResets > 0)
    && pendingResets <= 1
    && (message == IncorrectMessage ==> |selected| >= 2 && !IsCorrect(selected[..2], content, style))
  }

  /** What is on screen belongs to the current round: before the first round
      there are no options; afterwards the stylized image, the truth pair and
      the process frames are those of the drawn item and the four options are
      its entry's options in some order. */
  ghost predicate RoundShown(round: Option<Item>, stylized: Ident, options: seq<Ident>,
                             content: Ident, style: Ident, frames: Option<seq<Ident>>)
  {
    && (round.None? ==> options == [])
    && (round.Some? ==>
          stylized == round.value.key &&
          content == round.value.entry.options.content &&
          style == round.value.entry.options.style &&
          IsOrderingOf(options, round.value.entry.options) &&
          frames == FirstFrames(round.value.entry))
  }

  /** A round just started with an ordering of its entry's options, and no
      reset pending, satisfies the invariant whatever the state before. */
  lemma StartedRoundIsValid(g: Game, item: Item, options: seq<Ident>)
    requires g.StartedRound(item, options) && g.pendingResets == 0
    requires IsOrderingOf(options, item.entry.options)
    ensures g.Valid()
  {
  }

  /** Every round can be won: once a round is shown, the content and the style
      image are both among the options the player can click. */
  lemma ShownRoundIsWinnable(g: Game)
    requires g.Valid() && g.round.Some?
    ensures g.correctContent in g.shuffledOptions && g.correctStyle in g.shuffledOptions
  {
    var o := g.round.value.entry.options;
    var t := g.shuffledOptions;
    assert o.content in multiset(OptionList(o)) && o.style in multiset(OptionList(o));
    assert o.content in multiset(t) && o.style in multiset(t);
  }

  /** A click on a new option keeps the agreement of `SelectionAgrees`: the
      pick is appended; only a selection that has just reached two images is
      evaluated, a correct pair showing the success message and enabling
      "Next Round", a wrong one showing the retry message and scheduling one
      reset; otherwise message, button and pending resets stay. */
  lemma ClickKeepsAgreement(selected: seq<Ident>, message: Message, enabled: bool, pending: nat,
                            content: Ident, style: Ident, option: Ident,
                            message': Message, enabled': bool, pending': nat)
    requires SelectionAgrees(selected, message, enabled, pending, content, style)
    requires option !in selected
    requires |selected| + 1 != 2 ==> message' == message && enabled' == enabled && pending' == pending
    requires |selected| + 1 == 2 && IsCorrect(selected + [option], content, style) ==>
               message' == CorrectMessage && enabled' && pending' == pending
    requires |selected| + 1 == 2 && !IsCorrect(selected + [option], content, style) ==>
               message' == IncorrectMessage && enabled' == enabled && pending' == pending + 1
    ensures SelectionAgrees(selected + [option], message', enabled', pending', content, style)
  {
    var next := selected + [option];
    AppendFreshKeepsNoDuplicates(selected, option);
    if |next| == 2 {
      assert next[..2] == next;
    } else if |selected| >= 2 {
      assert next[..2] == selected[..2];
    }
  }

  class Game {
    var stylizedImage: Ident
    var shuffledOptions: seq<Ident>
    var correctContent: Ident
    var correctStyle: Ident
    var selectedImages: seq<Ident>
    var processImages: Option<seq<Ident>>
    var message: Message
    var isNextRoundEnabled: bool
    /** Reset callbacks scheduled by wrong pairs that have not fired yet. */
    var pendingResets: nat
    /** The catalog item of the current round; None before the first round. */
    ghost var round: Option<Item>

    /** The invariant of the reachable states: see `SelectionAgrees` and
        `RoundShown`. */
    ghost predicate Valid()
      reads this
    {
      && SelectionAgrees(selectedImages, message, isNextRoundEnabled, pendingResets,
                         correctContent, correctStyle)
      && RoundShown(round, stylizedImage, shuffledOptions, correctContent, correctStyle,
                    processImages)
    }

    /** The state right after round initialisation from `item`, showing its
        options in the order `options`. */
    ghost predicate StartedRound(item: Item, options: seq<Ident>)
      reads this
    {
      && round == Some(item)
      && stylizedImage == item.key
      && correctContent == item.entry.options.content
      && correctStyle == item.entry.options.style
      && shuffledOptions == options
      && selectedImages == []
      && processImages == FirstFrames(item.entry)
      && message == NoMessage
      && !isNextRoundEnabled
    }

    /** The component as first rendered, before any data has arrived. */
    constructor ()
      ensures Valid()
      ensures stylizedImage == "" && shuffledOptions == [] && correctContent == "" && correctStyle == ""
      ensures selectedImages == [] && processImages == Some([]) && message == NoMessage
      ensures !isNextRoundEnabled && pendingResets == 0 && round == None
    {
      stylizedImage := "";
      shuffledOptions := [];
      correctContent := "";
      correctStyle := "";
      selectedImages := [];
      processImages := Some([]);
      message := NoMessage;
      isNextRoundEnabled := false;
      pendingResets := 0;
      round := None;
    }

    /** Round initialisation once the catalog request has settled. `data` is
        None when the request or the JSON parsing failed; `draws` are the
        results of `Math.random`: the first picks the key, the next three drive
        the shuffle. A failed request and an empty catalog both end in the
        `catch`, which changes nothing. Called on mount and by the "Next Round"
        button, neither of which happens while a reset is pending. */
    method FetchData(data: Option<seq<Item>>, draws: seq<Draw>)
      requires Valid() && pendingResets == 0 && |draws| >= 4
      modifies this
      ensures Valid()
      ensures data.None? || data.value == [] ==> unchanged(this)
      ensures data.Some? && data.value != [] ==>
                var item := data.value[RandomIndex(draws[0], |data.value|)];
                StartedRound(item, RoundOptions(item.entry.options, draws[1..])) && pendingResets == 0
    {
      if data.None? {
        return;
      }
      var drawn := DrawItem(data.value, draws[0]);
      if drawn.None? {
        return;
      }
      var item := drawn.value;
      var options := ShuffleOptions(item.entry.options, draws[1..]);
      StartRound(item, options);
      StartedRoundIsValid(this, item, options);
    }

    /** The state updates of round initialisation for the drawn catalog item
        and its shuffled options: the stylized image, the truth pair, the
        options and the process frames of the entry, an empty selection and
        message, and "Next Round" disabled; pending resets are not touched. */
    method StartRound(item: Item, options: seq<Ident>)
      modifies this
      ensures StartedRound(item, options) && pendingResets == old(pendingResets)
    {
      var entry := item.entry;
      var o := entry.options;
      stylizedImage, correctContent, correctStyle, shuffledOptions :=
        item.key, o.content, o.style, options;
      selectedImages, processImages, message, isNextRoundEnabled :=
        [], FirstFrames(entry), NoMessage, false;
      ResetBorders();
      round := Some(item);
    }

    /** The state part of `resetBorders`: clears the selection and the message
        and changes nothing else. */
    method ResetBorders()
      modifies this
      ensures selectedImages == [] && message == NoMessage
      ensures stylizedImage == old(stylizedImage) && shuffledOptions == old(shuffledOptions)
      ensures correctContent == old(correctContent) && correctStyle == old(correctStyle)
      ensures processImages == old(processImages) && isNextRoundEnabled == old(isNextRoundEnabled)
      ensures pendingResets == old(pendingResets) && round == old(round)
    {
      selectedImages := [];
      message := NoMessage;
    }

    /** Evaluates a complete pair. A correct pair shows the success message and
        enables "Next Round"; a wrong pair shows the retry message and
        schedules a reset, leaving "Next Round" as it was. The selection and
        the round are not touched. */
    method CheckGuess(guessedPair: seq<Ident>)
      modifies this
      ensures IsCorrect(guessedPair, old(correctContent), old(correctStyle)) ==>
                message == CorrectMessage && isNextRoundEnabled && pendingResets == old(pendingResets)
      ensures !IsCorrect(guessedPair, old(correctContent), old(correctStyle)) ==>
                message == IncorrectMessage && isNextRoundEnabled == old(isNextRoundEnabled) &&
                pendingResets == old(pendingResets) + 1
      ensures selectedImages == old(selectedImages)
      ensures stylizedImage == old(stylizedImage) && shuffledOptions == old(shuffledOptions)
      ensures correctContent == old(correctContent) && correctStyle == old(correctStyle)
      ensures processImages == old(processImages) && round == old(round)
    {
      var isCorrect := IsCorrect(guessedPair, correctContent, correctStyle);
      if isCorrect {
        message := CorrectMessage;
        isNextRoundEnabled := true;
      } else {
        message := IncorrectMessage;
        pendingResets := pendingResets + 1;
      }
    }

    /** A click on an option image. A pick already in the selection changes
        nothing. Otherwise the pick is appended after the earlier ones, and the
        pair is evaluated exactly when the selection has just reached two
        images; a third or later pick is appended without evaluation. */
    method HandleImageClick(option: Ident)
      requires Valid()
      modifies this
      ensures Valid()
      ensures option in old(selectedImages) ==> unchanged(this)
      ensures option !in old(selectedImages) ==> selectedImages == old(selectedImages) + [option]
      ensures option !in old(selectedImages) && |selectedImages| != 2 ==>
                message == old(message) && isNextRoundEnabled == old(isNextRoundEnabled) &&
                pendingResets == old(pendingResets)
      ensures option !in old(selectedImages) && |selectedImages| == 2 ==>
                if IsCorrect(selectedImages, correctContent, correctStyle) then
                  message == CorrectMessage && isNextRoundEnabled && pendingResets == 0
                else
                  message == IncorrectMessage && !isNextRoundEnabled && pendingResets == 1
      ensures stylizedImage == old(stylizedImage) && shuffledOptions == old(shuffledOptions)
      ensures correctContent == old(correctContent) && correctStyle == old(correctStyle)
      ensures processImages == old(processImages) && round == old(round)
    {
      if option in selectedImages {
        return;
      }
      ghost var (selected, oldMessage, enabled, pending) :=
        (selectedImages, message, isNextRoundEnabled, pendingResets);
      var newSelectedImages := selectedImages + [option];
      selectedImages := newSelectedImages;
      if |newSelectedImages| == 2 {
        CheckGuess(newSelectedImages);
      }
      ClickKeepsAgreement(selected, oldMessage, enabled, pending, correctContent, correctStyle,
                          option, message, isNextRoundEnabled, pendingResets);
    }

    /** The reset callback scheduled by a wrong pair fires: the selection and
        the message are cleared, and "Next Round" stays disabled. */
    method OnResetTimeout()
      requires Valid() && pendingResets > 0
      modifies this
      ensures Valid()
      ensures selectedImages == [] && message == NoMessage && pendingResets == old(pendingResets) - 1
      ensures !isNextRoundEnabled
      ensures stylizedImage == old(stylizedImage) && shuffledOptions == old(shuffledOptions)
      ensures correctContent == old(correctContent) && correctStyle == old(correctStyle)
      ensures processImages == old(processImages) && round == old(round)
    {
      pendingResets := pendingResets - 1;
      ResetBorders();
    }

    /** A click on "Next Round". The button is disabled until a correct pair;
        when enabled it starts a new round from the fetched catalog. */
    method HandleNextRound(data: Option<seq<Item>>, draws: seq<Draw>)
      requires Valid() && |draws| >= 4
      modifies this
      ensures Valid()
      ensures !old(isNextRoundEnabled) || data.None? || data.value == [] ==> unchanged(this)
      ensures old(isNextRoundEnabled) && data.Some? && data.value != [] ==>
                var item := data.value[RandomIndex(draws[0], |data.value|)];
                StartedRound(item, RoundOptions(item.entry.options, draws[1..])) && pendingResets == 0
    {
      if !isNextRoundEnabled {
        return;
      }
      FetchData(data, draws);
    }
  }

  /** From a clear board, with a decoy different from the truth pair: a
      repeated pick counts once, a pair with the decoy is wrong, and once its
      reset fires the board is clear again with "Next Round" still disabled. */
  method WrongPairIsReset(g: Game, content: Ident, style: Ident, decoy: Ident)
    requires g.Valid() && g.selectedImages == [] && g.message == NoMessage
    requires g.correctContent == content && g.correctStyle == style
    requires content != style && decoy != content && decoy != style
    modifies g
    ensures g.Valid()
    ensures g.selectedImages == [] && g.message == NoMessage
    ensures !g.isNextRoundEnabled && g.pendingResets == 0
    ensures g.correctContent == content && g.correctStyle == style
  {
    g.HandleImageClick(decoy);
    assert g.selectedImages == [decoy];
    g.HandleImageClick(decoy);
    assert g.selectedImages == [decoy];
    assert !IsCorrect([decoy, content], content, style);
    g.HandleImageClick(content);
    assert g.message == IncorrectMessage && g.pendingResets == 1;
    g.OnResetTimeout();
  }

  /** The correct pair picked in reverse order enables "Next Round"; a late
      third pick is appended but not evaluated. */
  method RightPairEnablesNextRound(g: Game, content: Ident, style: Ident, decoy: Ident)
    requires g.Valid() && g.selectedImages == [] && g.message == NoMessage
    requires g.correctContent == content && g.correctStyle == style
    requires content != style && decoy != content && decoy != style
    modifies g
    ensures g.Valid()
    ensures g.isNextRoundEnabled && g.message == CorrectMessage && g.pendingResets == 0
    ensures g.selectedImages == [style, content, decoy]
  {
    g.HandleImageClick(style);
    assert g.selectedImages == [style];
    g.HandleImageClick(content);
    assert g.selectedImages == [style, content] && g.message == CorrectMessage;
    g.HandleImageClick(decoy);
  }
}
