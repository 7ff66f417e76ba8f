# Playlist controller of a musician's promotional site, in Dafny

This project models the client-side playlist controller of `main.js`. It also
models two small pure pieces beside it: the `M:SS` time formatter and the
contact form's field check and submit decision.

The controller drives N audio elements, each paired with one track item on the
page, through one shared transport surface. That surface has a play/pause
button, next and previous buttons, a volume slider, a mute button and a status
line. Each handler runs to completion as one step:

- `playTrack(i)` stops and rewinds every other audio, moves the `playing` class
  to track i, and toggles audio i.
- The play/pause button pauses the first unpaused audio. If none is unpaused, it
  plays the first flagged track. If none is flagged, it plays the first track.
- Next and previous move playback around the list, wrapping at both ends, but
  only while something plays.
- The media `play`, `pause` and `ended` listeners re-render the surface.
- The slider and the mute button set every audio's volume.
- Keyboard shortcuts dispatch to these handlers.

Files and modules:

- `optional.dfy` (`Optional`): the Option type.
- `clock.dfy` (`Clock`): `formatTime`, with a parser for its output and the
  round trip between them.
- `contact_form.dfy` (`ContactForm`): JavaScript whitespace and `trim`. It also
  holds the email pattern as an explicit string predicate, proved equal to a
  plain description of the accepted strings, plus `validateField` and the submit
  decision.
- `playlist.dfy` (`Playlist`): the controller state as a value (`Player`) and one
  function per handler.
- `playlist_properties.dfy` (`PlaylistProperties`): what the handlers promise,
  proved about those functions. This includes the invariant that at most one
  audio is unpaused, kept by every handler and so true in every reachable state.
- `keyboard.dfy` (`Keyboard`): the two keydown listeners as a dispatch from
  (key, target) to controller events.
- `controller.dfy` (`PlayerController`): the controller as a class. The
  per-audio state lives in arrays updated in place, and the loops mirror the
  source's `forEach`/`find` passes. Each method is proved to leave exactly the
  state that the matching `Playlist` function gives.

Units and conventions:

- Volumes are whole tenths, 0..10, because the slider's step is 0.1.
- Media positions are whole seconds.
- There are as many track items as audio elements. The handlers index one list
  by positions taken from the other, so this is part of the well-formedness
  predicate.
- The optional text of each track's title is fixed when the page is built.

Behaviour as the code has it (each is proved):

- The mute button never unmutes. `audioElements[0]?.volume || 0.7` turns a
  volume of 0 into 0.7, so the "restore 0.7" branch is dead and every click
  mutes (`MuteNeverUnmutes`). The class method marks the dead branch.
- An `ended` event does not rewind the audio and does not start the next
  track.
- Next and previous hand the target to `playTrack`, which does not rewind the
  target itself. So the target plays from where it stood. In the 3-track
  next-then-previous scenario this is 0, because the earlier switch rewound it
  (`PreviousUndoesNext`).
- The track's keydown listener does not stop propagation. Space on a focused
  track therefore also reaches the document listener, which clicks play/pause.
  A paused track starts and is paused again at once, and a playing one is paused
  and resumed (`SpaceOnTrackKeepsPlayState`). So Space on a focused track does
  more than activate it: it also clicks play/pause.
- The invariant that at most one audio plays (`ReachableAtMostOne`) holds over
  the controller's own handlers. The `play` listener pauses no other audio, so a
  second audio started by the host (its native controls, say) would break it.
- The arrow keys click next and previous whatever has focus, the volume slider
  included. On the focused slider, ArrowRight therefore skips the track and also
  raises the volume, and ArrowLeft goes back a track and lowers it. The volume
  change is the slider's own default action, which the listener does not cancel
  (see "## Left out").
- A page without audio elements gets no controller and no listener at all, so
  `Step` and `Run` change nothing there (`NoAudioIgnoresEvents`).
- The play/pause button never renders the surface itself. Only the media events
  that follow do.

## Model

| member | source | states |
|---|---|---|
| Clock.Decimal | main.js:360 | `toString` of a whole number: a non-empty digit string; its meaning is `DecimalRoundTrip` and `DecimalCanonical` |
| Clock.FormatTime | main.js:355-361 | formatTime; its meaning is `FormatTimeShape`, `FormatTimeRoundTrip` and `NonFiniteReadsAsZero` |
| ContactForm.Trim | main.js:531 | `String.prototype.trim`; stated by `TrimStart`, `TrimEnd` and `TrimEmptyIffBlank` |
| ContactForm.EmailPattern | main.js:524 | the email regular expression; stated by `EmailPatternIff` |
| ContactForm.ValidateField | main.js:522-538 | validateField; stated by `ValidateFieldMeaning` |
| ContactForm.Sanitize | main.js:481-486 | the empty string stays empty, anything else is escaped; used by `MailtoUrl` |
| ContactForm.MailtoUrl | main.js:494-510 | the mailto URL; stated by `MailtoAddressed` |
| ContactForm.Submit | main.js:423-511 | the submit listener; stated by `HoneypotSilences`, `SubmitAgreesWithFieldCheck`, `NavigateOnlyWhenValid`, `NavigateWhenValid` and `MissingInputThrows` |
| Clock.DecimalRoundTrip | main.js:360 | the decimal digits of a whole number read back as that number |
| Clock.DecimalCanonical | main.js:360 | the digits have no leading zero; 0..9 is one digit |
| Clock.PadStart | main.js:360 | padStart gives at least the width, keeps the text as its suffix, and fills only in front |
| Clock.SecondsField | main.js:359-360 | the seconds field is always exactly two digits whose value is the seconds |
| Clock.FormatTimeShape | main.js:355-361 | a finite time prints as floor(s/60), a colon and s mod 60 in two digits; there is no hour field |
| Clock.FormatTimeRoundTrip | main.js:355-361 | reading the printed text back gives the input seconds |
| Clock.FormatTimeInjective | main.js:355-361 | distinct whole seconds print differently |
| Clock.NonFiniteReadsAsZero | main.js:356 | a non-finite time prints `0:00`, the same as zero seconds |
| Clock.FormatTimeExamples | main.js:355-361 | 65 s prints `1:05`, 5 s prints `0:05`, 3600 s prints `60:00` |
| ContactForm.TrimStart | main.js:531 | the result is a suffix, everything dropped is whitespace, and it starts with a non-space |
| ContactForm.TrimEnd | main.js:531 | the result is a prefix, everything dropped is whitespace, and it ends with a non-space |
| ContactForm.TrimEmptyIffBlank | main.js:531 | a value trims to the empty string exactly when every character is whitespace |
| ContactForm.EmailPatternIff | main.js:524 | the regular expression accepts exactly `L@D`: no whitespace, non-empty L, no second `@`, and a dot inside D with text on both sides |
| ContactForm.ValidateFieldMeaning | main.js:522-538 | the field is accepted exactly when a non-empty email matches and a `Name` field is not blank; the email message comes first; an empty email is not checked |
| ContactForm.HoneypotSilences | main.js:427-431 | a filled honeypot makes the submit do nothing, whatever the other fields hold |
| ContactForm.SubmitAgreesWithFieldCheck | main.js:441-458 | the submit shows errors exactly when the per-field check rejects the email or the name, and names which one |
| ContactForm.NavigateOnlyWhenValid | main.js:460-511 | a mailto navigation needs an empty honeypot, every input present, an empty or well-formed email and a non-blank name |
| ContactForm.MailtoAddressed | main.js:494-510 | every composed URL starts with `mailto:` and the fixed recipient |
| ContactForm.NavigateWhenValid | main.js:475-510 | with an empty honeypot, all five inputs present, an empty or well-formed email and a non-blank name, the submit navigates to the mail composed from the five values |
| ContactForm.MissingInputThrows | main.js:488-492 | once the fields pass, the submit throws exactly when one of the five inputs it reads is missing |
| ContactForm.RecipientIsAnEmail | main.js:496-498 | the assembled recipient address matches the email pattern |
| Playlist.Render | main.js:158-185 | updatePlayerUI; stated by `OnPlayEffect`, `OnPauseEffect` and `NowPlayingText` |
| Playlist.PlayTrack | main.js:131-156 | playTrack keeps the state well formed; its effect is `PlayTrackEffect` |
| Playlist.PlayPause | main.js:265-283 | the play/pause click keeps the state well formed; its effect is `PlayPausePausesFirst`, `PlayPauseResumesFlagged` and `PlayPauseStartsFirst` |
| Playlist.NextIndex | main.js:313 | the next index is below n; `IndexArithmetic` gives its value |
| Playlist.PreviousIndex | main.js:329 | the previous index is below n; `IndexArithmetic` gives its value |
| Playlist.Switch | main.js:308-315 | pause and rewind the playing audio, then playTrack on the target, keeping the state well formed; its effect is `SwitchEffect` |
| Playlist.Next | main.js:303-317 | playNextTrack keeps the state well formed; its effect is `NextEffect` and `SkipNeedsPlayback` |
| Playlist.Previous | main.js:319-333 | playPreviousTrack keeps the state well formed; its effect is `PreviousEffect` and `SkipNeedsPlayback` |
| Playlist.OnPlay | main.js:204-207 | the `play` listener; stated by `OnPlayEffect` |
| Playlist.OnPause | main.js:210-212 | the `pause` listener; stated by `OnPauseEffect` |
| Playlist.OnEnded | main.js:197-201 | the `ended` listener; stated by `OnEndedEffect` |
| Playlist.SetVolume | main.js:220-236 | the slider's `input` listener keeps the state well formed; its effect is `SetVolumeEffect` |
| Playlist.MuteProbe | main.js:241 | the first audio's volume, falling back to 0.7 when it is 0 or missing; stated by `MuteProbePositive` |
| Playlist.ToggleMute | main.js:240-259 | the mute click keeps the state well formed; its effect is `MuteAlwaysMutes` and `MuteNeverUnmutes` |
| Playlist.Step | main.js:25-333 | one handler runs to completion and keeps the state well formed, and nothing reacts on a page without audio; `StepKeepsAtMostOne` is its invariant |
| Playlist.Run | main.js:131-333 | handlers run in order keep the state well formed; `RunKeepsAtMostOne` and `RunAppend` are about it |
| Playlist.Initial | main.js:51-82 | the page loads well formed and idle: every audio paused at 0 at the media default volume, no track flagged, the slider at 0.7 with the volume-up glyph, the play glyph and `No track playing` |
| Playlist.FirstWhere | main.js:266-274 | the result is the least index holding the value, or none when no index does |
| Playlist.VolumeIcon | main.js:227-235 | mute glyph iff 0, volume-down iff strictly between 0 and 0.5, volume-up iff at least 0.5 |
| PlaylistProperties.PlayTrackEffect | main.js:131-156 | every other audio is paused at 0, only track i is flagged, audio i toggles and keeps its position, at most one audio plays, and the surface shows the title iff i started |
| PlaylistProperties.PlayTrackTwice | main.js:131-156 | two activations of the same track give it back its play state at the same position, with the rest stopped |
| PlaylistProperties.PlayPausePausesFirst | main.js:265-269 | with something unpaused the button pauses the first such audio and changes nothing else |
| PlaylistProperties.PlayPauseResumesFlagged | main.js:270-277 | with nothing unpaused the button plays the first flagged track without rewinding it |
| PlaylistProperties.PlayPauseStartsFirst | main.js:278-281 | with nothing unpaused and nothing flagged the button plays track 0, or does nothing without tracks |
| PlaylistProperties.PlayPauseResumesAfterPlayTrack | main.js:146-154 | a track paused through its own activation is resumed by the button at the same position |
| PlaylistProperties.PlayPauseKeepsAtMostOne | main.js:265-283 | the button keeps at most one audio unpaused |
| PlaylistProperties.IndexArithmetic | main.js:313-329 | next is (j+1) mod n, previous is (j-1+n) mod n, and each undoes the other |
| PlaylistProperties.SkipNeedsPlayback | main.js:303-333 | next and previous change nothing when no audio is unpaused |
| PlaylistProperties.SwitchEffect | main.js:307-315 | the playing audio is paused at 0, and the target plays from where it stood, alone and flagged, with its title shown |
| PlaylistProperties.NextEffect | main.js:303-317 | next moves playback from the unpaused audio j to (j+1) mod n |
| PlaylistProperties.PreviousEffect | main.js:319-333 | previous moves playback from the unpaused audio j to (j-1+n) mod n |
| PlaylistProperties.NextSingleTrackRestarts | main.js:303-317 | with one track, next restarts it from 0 |
| PlaylistProperties.PreviousUndoesNext | main.js:303-333 | previous after next plays the same track again from 0, with the rest stopped |
| PlaylistProperties.OnPlayEffect | main.js:204-207 | a play event shows the pause glyph and the title only while that audio is unpaused, and changes only the surface |
| PlaylistProperties.NowPlayingText | main.js:171-172 | the status reads `Now playing: <title>`, or `Unknown track` without a title |
| PlaylistProperties.OnPauseEffect | main.js:210-212 | a pause event shows the play glyph and `No track playing`, and nothing else changes |
| PlaylistProperties.OnEndedEffect | main.js:197-201 | an ended event is the old state with only that track's flag dropped and the idle surface; no audio starts or rewinds |
| PlaylistProperties.SetVolumeEffect | main.js:220-236 | the slider sets every audio and itself to v, picks the glyph by the thresholds 0 and 0.5, and leaves everything else as it was |
| PlaylistProperties.MuteProbePositive | main.js:241 | the probed volume is never 0 |
| PlaylistProperties.MuteAlwaysMutes | main.js:240-259 | every click sets every audio and the slider to 0 with the mute glyph |
| PlaylistProperties.MuteNeverUnmutes | main.js:240-259 | clicking mute on a muted player leaves it muted |
| PlaylistProperties.StepKeepsAtMostOne | main.js:131-333 | every handler keeps at most one audio unpaused |
| PlaylistProperties.RunKeepsAtMostOne | main.js:131-333 | any run of handlers keeps at most one audio unpaused |
| PlaylistProperties.NoAudioIgnoresEvents | main.js:25 | with no audio element nothing is attached, so no run of events changes the state |
| PlaylistProperties.ReachableAtMostOne | main.js:131-333 | from page load, at most one audio is ever unpaused |
| PlaylistProperties.RunAppend | main.js:131-333 | handling two runs one after the other is handling their concatenation |
| PlaylistProperties.ThreeTrackScenario | main.js:303-333 | three tracks, play 1, next, previous: 1 plays, then 2 with 1 at 0, then 1 again from 0 |
| Keyboard.TrackKeyEvents | main.js:117-122 | the track's keydown listener; stated by `KeyEventsMeaning` |
| Keyboard.DocumentKeyButton | main.js:364-382 | the document's keydown listener; stated by `KeyEventsMeaning` and `ArrowsActEverywhere` |
| Keyboard.KeyEvents | main.js:363-382 | the track's listener (main.js:117-122) and then the document's, in bubbling order; stated by `KeyEventsMeaning` and `SpaceOnTrackDispatchesTwice` |
| Keyboard.KeyEventsMeaning | main.js:363-382 | Space outside text fields clicks play/pause, the arrows click next and previous, Enter or Space on a track activates it, and these listeners cause nothing else |
| Keyboard.SpaceOnTrackDispatchesTwice | main.js:117-122 | Space on a focused track activates it and then clicks play/pause |
| Keyboard.EnterOnTrackActivates | main.js:117-122 | Enter on a focused track only activates it |
| Keyboard.ArrowsActEverywhere | main.js:372-381 | the arrow keys act whatever has focus, text fields included |
| Keyboard.SpaceOnTrackRun | main.js:117-122 | Space on a focused track handles playTrack and then the play/pause click |
| Keyboard.SpaceOnTrackKeepsPlayState | main.js:117-122 | Space on a focused track leaves its play state and position as they were, stops the rest, and can leave a stale `Now playing` text |
| PlayerController.ThreeTrackSession | main.js:131-333 | the class-level run of `ThreeTrackScenario`: after play 1, next and previous, track 1 plays from 0 and the others are stopped |
| PlayerController.FindFirst | main.js:266 | the linear scan returns the first index holding the value, or none |
| PlayerController.Controller.constructor | main.js:51-82 | the controller starts in the page-load state |
| PlayerController.Controller.Render | main.js:158-185 | the surface is re-rendered as updatePlayerUI does, and nothing else changes |
| PlayerController.Controller.StopOthers | main.js:133-138 | after the pass every audio but i is paused at 0 and audio i is as it was |
| PlayerController.Controller.FlagOnly | main.js:141-146 | after the pass only track i carries the `playing` class |
| PlayerController.Controller.PlayTrack | main.js:131-156 | the in-place passes leave the state that playTrack gives |
| PlayerController.Controller.PlayPauseClick | main.js:265-283 | the button's scans and update leave the state the play/pause function gives |
| PlayerController.Controller.Switch | main.js:307-315 | pause and rewind j, then playTrack on the target |
| PlayerController.Controller.Next | main.js:303-317 | the in-place next handler leaves the state the next function gives |
| PlayerController.Controller.Previous | main.js:319-333 | the in-place previous handler leaves the state the previous function gives |
| PlayerController.Controller.OnPlay | main.js:204-207 | the play listener re-renders from audio i |
| PlayerController.Controller.OnPause | main.js:210-212 | the pause listener renders idle |
| PlayerController.Controller.OnEnded | main.js:197-201 | the ended listener drops track i's flag and renders idle |
| PlayerController.Controller.VolumeInput | main.js:220-236 | the volume pass sets every audio to v and updates the glyph |
| PlayerController.Controller.MuteClick | main.js:240-259 | the mute pass sets every audio and the slider to 0; the restore branch is unreachable |
| PlayerController.Controller.KeyDown | main.js:363-382 | a keydown runs the track listener and then the document listener, in that order |

## Left out

- Real media playback is not modelled. `play()` is modelled as clearing `paused` at once and `pause()` as setting it. An autoplay rejection never arrives.
- The browser's queued `play`/`pause`/`ended` notifications are not modelled. The model treats them as separate events that may come in any order.
- Playback that the host does on its own is not modelled: time advancing, native media controls, and reaching the end of the media. Positions change only through the handlers.
- `updateProgressDisplay` and the `timeupdate` listener (main.js:335-353) are left out. They divide floating-point times for the progress bar; only `formatTime` is modelled.
- The controller markup, the overlay button, and the aria and tabindex attributes (main.js:40-127) are presentation only. The click on the overlay is the `TrackActivated` event. The model assumes the transport markup exists; the source skips rendering and listener setup when it does not.
- `preventDefault` (main.js:119, main.js:367) is left out as a statement. The model relies on it. In the track listener it cancels the keyboard activation of a focused overlay button. Without it, that activation would fire a click that the track's click listener (main.js:110-114) turns into a second playTrack. In the document listener it cancels Space's activation of a focused transport button, and the page scrolling on Space. So the two listeners' own effects are exactly the events `KeyEvents` lists.
- Smooth scrolling (main.js:386-416) and scroll-to-top (main.js:569-589) are left out. They are window geometry and a CSS class toggle.
- The DOM work of `showFieldError` and `clearFieldError` (main.js:540-566) is left out. The verdict carries the message that would be shown.
- The form-level error banner insertion and removal (main.js:460-478) is left out for the same reason.
- `sanitize`'s HTML escaping and `encodeURIComponent` are parameters of the submit decision. They are the browser's own code. `window.location` navigation is the `Navigate` result.
- The browser's default actions for keys other than Space are left out, because the document listener cancels only Space. For example:
  - ArrowLeft, ArrowRight, ArrowUp and ArrowDown on the focused volume slider step it, and so fire an `input` event. The model would need this as a separate `VolumeInput` event.
  - Enter on a focused transport button clicks it.
  `KeyEvents` lists only what the two listeners themselves cause.
- Playlist.SetVolume, Playlist.ToggleMute and the class's VolumeInput and MuteClick model the listener bodies, which act whatever the number of audios. The source never attaches those listeners without an audio element. `Step`, `Run` and `KeyDown` account for that.
- `console.log` calls are left out.
- Clock.Decimal: prints every whole number in plain digits. JavaScript prints numbers of 1e21 and more in exponent form, and a double above 2^53 cannot hold every whole number. So `FormatTimeRoundTrip` and `FormatTimeInjective` speak for the model's unbounded seconds. They match the source only below those sizes, which no audio reaches.
- Clock.FormatTime: takes whole non-negative seconds. A negative finite input (for which the source prints `-1:-5` for -5) and the flooring of fractional seconds are not modelled. Media times are never negative.
- Unequal numbers of track items and audio elements are excluded by `Playlist.WellFormed`. The source would index missing elements.
