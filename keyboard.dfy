/** The keyboard shortcuts: the keydown listener of each track item and the
    document-level listener of setupKeyboardControls, as a dispatch from a key
    and the element that has focus to the controller events they cause. */
module Keyboard {
  import opened Optional
  import opened Playlist
  import opened PlaylistProperties

  /** The target of a keydown event: focus on or inside track i, with `tag` the
      focused element's upper-case tag name, or focus anywhere else, by its tag. */
  datatype Target = TrackItem(index: nat, tag: string) | Element(tag: string)

  /** The transport buttons the document listener clicks. */
  datatype Button = PlayPauseButton | NextButton | PreviousButton

  /** The keys the track listener reacts to. */
  predicate ActivatesTrack(key: string) { key == "Enter" || key == " " }

  /** Space is ignored while typing into an input or a text area. */
  predicate IsTextField(tag: string) { tag == "INPUT" || tag == "TEXTAREA" }

  /** The track listener: Enter or Space on a focused track plays it. It calls
      preventDefault but not stopPropagation, so the event goes on to the document. */
  function TrackKeyEvents(key: string, target: Target): seq<Event>
  {
    if target.TrackItem? && ActivatesTrack(key) then [TrackActivated(target.index)] else []
  }

  /** The document listener: Space outside text fields clicks play/pause, the
      arrow keys click next and previous. */
  function DocumentKeyButton(key: string, tag: string): Option<Button>
  {
    if key == " " && !IsTextField(tag) then Some(PlayPauseButton)
    else if key == "ArrowRight" then Some(NextButton)
    else if key == "ArrowLeft" then Some(PreviousButton)
    else None
  }

  /** The click listener of each transport button. */
  function Click(b: Button): Event
  {
    match b
    case PlayPauseButton => PlayPauseClicked
    case NextButton => NextClicked
    case PreviousButton => PreviousClicked
  }

  /** The click the document listener makes, if any. */
  function DocumentKeyEvents(key: string, tag: string): seq<Event>
  {
    match DocumentKeyButton(key, tag)
    case None => []
    case Some(b) => [Click(b)]
  }

  /** Everything one keydown causes, in the order the listeners run: the target's
      own listener, then the document's as the event bubbles up. */
  function KeyEvents(key: string, target: Target): seq<Event>
  {
    TrackKeyEvents(key, target) + DocumentKeyEvents(key, target.tag)
  }

  /** The dispatch of the two listeners in both directions: which keys start a
      track, which click play/pause, next or previous; no key causes more than two
      events from these listeners. */
  lemma KeyEventsMeaning(key: string, target: Target)
    ensures |KeyEvents(key, target)| <= 2
    ensures forall i :: TrackActivated(i) in KeyEvents(key, target) <==>
      target == TrackItem(i, target.tag) && ActivatesTrack(key)
    ensures PlayPauseClicked in KeyEvents(key, target) <==> key == " " && !IsTextField(target.tag)
    ensures NextClicked in KeyEvents(key, target) <==> key == "ArrowRight"
    ensures PreviousClicked in KeyEvents(key, target) <==> key == "ArrowLeft"
    ensures forall e :: e in KeyEvents(key, target) ==>
      e.TrackActivated? || e == PlayPauseClicked || e == NextClicked || e == PreviousClicked
  {
  }

  /** Space on a focused track item causes two events: the track's activation,
      then a play/pause click. */
  lemma SpaceOnTrackDispatchesTwice(i: nat, tag: string)
    requires !IsTextField(tag)
    ensures KeyEvents(" ", TrackItem(i, tag)) == [TrackActivated(i), PlayPauseClicked]
  {
  }

  /** Enter on a focused track item only activates it. */
  lemma EnterOnTrackActivates(i: nat, tag: string)
    ensures KeyEvents("Enter", TrackItem(i, tag)) == [TrackActivated(i)]
  {
  }

  /** The arrow keys act wherever the focus is, text fields included. */
  lemma ArrowsActEverywhere(target: Target)
    ensures KeyEvents("ArrowRight", target) == [NextClicked]
    ensures KeyEvents("ArrowLeft", target) == [PreviousClicked]
  {
  }

  /** The events of a keydown fit the controller whenever the focused track exists. */
  lemma KeyEventsFit(n: nat, key: string, target: Target)
    requires target.TrackItem? ==> target.index < n
    ensures forall k :: 0 <= k < |KeyEvents(key, target)| ==> Fits(n, KeyEvents(key, target)[k])
  {
  }

  /** Space on a focused track runs playTrack and then the play/pause button. */
  lemma SpaceOnTrackRun(s: Player, i: nat, tag: string)
    requires WellFormed(s) && i < Count(s) && !IsTextField(tag)
    ensures Run(s, KeyEvents(" ", TrackItem(i, tag))) == PlayPause(PlayTrack(s, i))
  {
    KeyEventsFit(Count(s), " ", TrackItem(i, tag));
    SpaceOnTrackDispatchesTwice(i, tag);
    var t := PlayTrack(s, i);
    var es := KeyEvents(" ", TrackItem(i, tag));
    assert es[1..] == [PlayPauseClicked];
    assert Run(t, [PlayPauseClicked]) == Run(PlayPause(t), []);
  }

  /** Because the two listeners both run, Space on a focused track never changes
      whether that track plays: a paused track is started and paused again at once,
      a playing one is paused and resumed. Every other audio is still stopped and
      rewound, and a started-then-paused track leaves `Now playing` on the status
      until the media events re-render it. */
  lemma SpaceOnTrackKeepsPlayState(s: Player, i: nat, tag: string)
    requires WellFormed(s) && i < Count(s) && !IsTextField(tag)
    ensures var r := Run(s, KeyEvents(" ", TrackItem(i, tag)));
      && r.paused[i] == s.paused[i]
      && r.position[i] == s.position[i]
      && OthersStopped(r, i)
      && OnlyFlagged(r, i)
      && (s.paused[i] ==> r.status == NowPlaying(s.titles[i]))
  {
    SpaceOnTrackRun(s, i, tag);
    var t := PlayTrack(s, i);
    PlayTrackEffect(s, i);
    if s.paused[i] {
      FirstWhereIs(t.paused, false, i);
      PlayPausePausesFirst(t, i);
    } else {
      FirstWhereIs(t.flagged, true, i);
      PlayPauseResumesFlagged(t, i);
    }
  }
}
