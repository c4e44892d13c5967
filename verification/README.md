# VibeOn playback core in Dafny

A model of the local music player's playback controller (`PlayerProvider`
in `context/PlayerContext.tsx`) and of the small collection and string
helpers around it: playlist bookkeeping, favourites, the tab-swipe
arithmetic and the full-screen player's clock and loop button.

The controller's state is one immutable record (`Engine.PlayerState`):
the queue, the current index (-1 before anything plays), the current song,
the loop mode, the `finishedRef` latch and the `lastProcessedTime` mark.
Every public operation is one pure step, and so is every status poll of the
audio device (`Engine.OnStatus`). Commands for the device (`replace`, `play`,
`pause`, `seekTo`) are appended to the state's `log` rather than executed.
The status fields an operation reads (`status.playing`,
`status.currentTime`) are parameters of that step. Times are `real` seconds.

Files, one module each:

- `wrappers.dfy`: `Option`.
- `songs.dfy`: `Song` and the id-keyed `findIndex` and `filter` operations.
- `loop_mode.dfy`: `LoopMode` (`Off` is the source's `"none"`), the toggle rotation, and the end-of-track policy `NextOnFinish` stated on its own.
- `player_engine.dfy`: the controller, the poll-driven finish detector, and the `Step`/`Replay` view of a whole session.
- `playlists.dfy`: playlist create/add/remove/delete/find, with both removal variants.
- `favourites.dfy`: `toggleFavourite`.
- `tab_gestures.dfy`: `useTabGestures`.
- `decimal.dfy`: decimal rendering of whole numbers and its inverse.
- `player_view.dfy`: `formatTime`, the loop icon and colour, `trim`, and the create-playlist handler.

The model follows the code as written, including where the source's comments say otherwise:

- A manual "next" at the last track under loop mode `none` wraps to the first track (`context/PlayerContext.tsx:211-213`). The comment on line 215 says it stops.
- A finish at the last track under `none` also wraps to the first track (`context/PlayerContext.tsx:391-395`).
- Under `one`, a manual "next" at the last index replays the current track (`context/PlayerContext.tsx:207-209`).
- `context/PlayerContext.tsx:261-347` repeats the playlist operations of `context/PlayListContext.tsx`. Creation, addition, deletion and lookup are the same code and are modelled once. The two removals differ, and both are modelled.

## Model

| member | source | states |
|---|---|---|
| Engine.PlayIndex | context/PlayerContext.tsx:118-138 | An index outside the list (given list, else the queue) changes nothing. Otherwise that list becomes the queue, the index is set, the current song is `list[idx]`, the device gets replace-then-play, and the state is valid afterwards. |
| Engine.PlaySong | context/PlayerContext.tsx:141-170 | The device is always paused first. A non-empty list becomes the queue at the song's first position by id, or 0. Otherwise, if the existing queue has the id, that slot plays in the unchanged queue. Otherwise a one-song queue plays. The result is always valid. Unless a given list lacks the song, the song now current has the requested id. |
| Engine.TogglePlayPause | context/PlayerContext.tsx:173-184 | Only one command is added: pause when the status says playing, play otherwise. Nothing else changes. |
| Engine.SeekTo | context/PlayerContext.tsx:187-197 | One seek is issued, to `max(0, seconds)`: non-negative targets pass unchanged, negative ones become 0, and there is no upper clamp. |
| Engine.PlayNext | context/PlayerContext.tsx:200-219 | From `0 <= i < len-1`, goes to `i+1` in every mode. At the last index, `one` replays `i` and `all`/`none` go to 0. An empty queue changes nothing. Validity is preserved. |
| Engine.PlayPrevious | context/PlayerContext.tsx:221-250 | A position over 3 s with `i >= 0` only seeks to 0. Else `i > 0` goes to `i-1`. Else `all` with a non-empty queue goes to the last slot. Else it seeks to 0. The index moves by at most one step back or to the last slot, and validity is preserved. |
| Engine.ToggleLoopMode | context/PlayerContext.tsx:253-258 | Only the loop mode changes, and it always changes. |
| Engine.ToggleLoopModeThrice | context/PlayerContext.tsx:253-258 | Three toggles restore the whole state. |
| Engine.SetLoopModeAgreesWithToggle | context/PlayerContext.tsx:92 | The exposed setter, given the mode the button would pick next, is the same step as pressing the button. Setting the mode already in force changes nothing. |
| Engine.FinishTransition | context/PlayerContext.tsx:374-396 | The per-mode finish handler leaves the latch and the staleness mark alone and keeps the state valid. |
| Engine.OnStatus | context/PlayerContext.tsx:352-413 | No duration: no change. A playing, barely-moved report: no change, not even the mark or the latch. Otherwise the mark becomes the position. A processed playing report clears the latch. A firing report sets it. A stopped report never clears it. The latch is cleared only by a processed playing report, and set only by a firing report or when it was already set. Without a firing, queue, index, song and log are unchanged. |
| Engine.FinishFollowsLoopPolicy | context/PlayerContext.tsx:374-396 | On a valid state, a firing report loads exactly the index the loop policy names (`one`: same; `all`: next or wrap to 0; `none`: next, or 0 from the last slot), or leaves the queue alone when the policy yields no index. |
| Engine.FinishFiresAtMostOnce | context/PlayerContext.tsx:370-402 | Over any run of stopped reports, the finish fires at most once, and never if the latch is already set. If the latch was set or the finish fired, the latch is still set at the end of the run. |
| Engine.FinishFiresExactlyOnce | context/PlayerContext.tsx:370-402 | A run of stopped reports whose first report fires fires exactly once and ends with the latch set. |
| Engine.RepeatedEndReportIsIgnored | context/PlayerContext.tsx:370-373 | Repeating the report that fired neither fires again nor changes the state. |
| Engine.ThreeTrackScenario | context/PlayerContext.tsx:357-402 | Concrete run: with queue `[t1, t2, t3]` under `none`, each stop at the end advances once, a repeated stop report changes nothing, a playing report re-arms the latch, and the last track wraps to `t1`. |
| Engine.ReplayKeepsQueueValid | context/PlayerContext.tsx:118-132 | Any sequence of calls and polls keeps this invariant: the index is -1 with an empty queue and no song, or a valid slot whose song is the current one. |
| Engine.ValidFromInitial | context/PlayerContext.tsx:87-89 | From the provider's initial state, every reachable state satisfies that invariant. |
| Loop.Toggle | context/PlayerContext.tsx:253-258 | Toggling cycles `none -> one -> all -> none`, never staying put. |
| Loop.ToggleThriceIsIdentity | context/PlayerContext.tsx:254-257 | Three toggles are the identity and two are not. |
| Songs.IndexOfId | context/PlayerContext.tsx:151 | `findIndex` by id returns -1 exactly when no entry has the id. Otherwise it returns the first position holding it. |
| Songs.RemoveId | context/FavouriteContext.tsx:60 | The filter keeps exactly the entries with another id and none with this one. |
| Songs.KeepId | context/PlayListContext.tsx:155 | The inverted filter keeps exactly the entries with this id. |
| Songs.KeepIdAppend | context/PlayListContext.tsx:155 | The inverted filter distributes over concatenation, so the kept entries stay in order. |
| Songs.RemoveIdAppend | context/FavouriteContext.tsx:60 | The filter distributes over concatenation, so survivors keep their order. |
| Songs.RemoveAbsentId | context/FavouriteContext.tsx:60 | Filtering out an absent id returns the list unchanged. |
| Songs.RemoveIdPreservesNoDuplicates | context/FavouriteContext.tsx:60 | Filtering cannot create duplicate ids. |
| Playlists.DefaultPlaylistsShape | context/PlayListContext.tsx:48-61 | The initial state is two playlists, ids "1" and "2", both empty. |
| Playlists.CreatePlaylist | context/PlayListContext.tsx:102-115 | Exactly one playlist is appended, with the given name, id and timestamp and no songs. The existing playlists are unchanged. |
| Playlists.UpdateWhere | context/PlayListContext.tsx:122-137 | `map` over the playlists changes only those with the id, position by position. |
| Playlists.AddSong | context/PlayListContext.tsx:124-133 | A playlist holding the id is returned as is. Otherwise the song is appended. Afterwards the id is present. |
| Playlists.AddToPlaylist | context/PlayListContext.tsx:119-145 | Always reports true. Count, order and ids of the playlists are kept. Other playlists are untouched. The target is unchanged if it holds the id, else it gains the song at the end. |
| Playlists.AddToPlaylistIdempotent | context/PlayListContext.tsx:126-133 | Adding the same song twice equals adding it once. |
| Playlists.RemoveFromPlaylistAsWritten | context/PlayListContext.tsx:147-169 | As written: always true; count, order and ids kept; every playlist's `songs` unchanged; other playlists untouched. Each target gains only the stray property, holding the entries whose id equals the removed one. |
| Playlists.RemoveAsWrittenKeepsSong | context/PlayListContext.tsx:150-160 | A song in the target playlist is still there after its "removal". |
| Playlists.RemoveAsWrittenCounterexample | context/PlayListContext.tsx:152-156 | Concrete input: "My Favorites" holding song "s" still holds `[s]` after removing "s". |
| Playlists.RemoveFromPlaylist | context/PlayerContext.tsx:304-325 | Always true. Count, order and ids are kept. Other playlists are untouched. The targets lose exactly the songs with that id, and nothing else in them changes. |
| Playlists.AddThenRemoveRestores | context/PlayerContext.tsx:276-325 | Adding a song not yet in the target and then removing its id restores the playlists exactly. |
| Playlists.DeletePlaylist | context/PlayListContext.tsx:171-189 | Always true. No playlist with the id remains. Every other playlist survives. |
| Playlists.Without | context/PlayListContext.tsx:175-177 | The filter keeps exactly the playlists with another id. |
| Playlists.DeletePlaylistKeepsOrder | context/PlayListContext.tsx:175-177 | Deletion distributes over concatenation, so survivors keep their order. |
| Playlists.DeleteAbsentPlaylist | context/PlayListContext.tsx:175-177 | Deleting an id nobody has changes nothing. |
| Playlists.GetPlaylistById | context/PlayListContext.tsx:191-196 | The result is null exactly when no playlist has the id. Otherwise it is the first playlist with that id. |
| Playlists.CreatedPlaylistIsFound | context/PlayListContext.tsx:102-115 | A playlist created under a fresh id is what lookup by that id returns. |
| Favourites.ToggleFavourite | context/FavouriteContext.tsx:56-63 | An absent id is appended at the end. A present id has every entry with it removed. Membership of the id flips. |
| Favourites.ToggleAbsentTwiceRestores | context/FavouriteContext.tsx:59-61 | Toggling an absent song twice gives back the original list. |
| Favourites.ToggleLeavesOthersAlone | context/FavouriteContext.tsx:60 | With the toggled id filtered out, the list is identical before and after, so other entries and their order are unaffected. |
| Favourites.ToggleKeepsIdsUnique | context/FavouriteContext.tsx:59-61 | A list without duplicate ids has none after a toggle. |
| TabGestures.IndexOf | Animations/useTabGestures.tsx:23 | `indexOf` gives the first position holding the route, or -1 when it is absent. |
| TabGestures.CurrentTabIndex | Animations/useTabGestures.tsx:13-27 | A missing or empty last segment, or "(tabs)", gives 0. Otherwise the result is the route's first index, or 0 if it is absent. It is always inside a non-empty tab bar. |
| TabGestures.TargetIndex | Animations/useTabGestures.tsx:34-38 | "left" goes to `current-1` when `current > 0`. "right" goes to `current+1` when `current < n-1`. Otherwise it stays put. |
| TabGestures.TabPathIsPrefixed | Animations/useTabGestures.tsx:46 | Both path branches give "/(tabs)/" followed by the route. |
| TabGestures.NavigateToTab | Animations/useTabGestures.tsx:29-52 | A path is pushed exactly when the target differs from the current tab. |
| TabGestures.NavigationMovesOneTab | Animations/useTabGestures.tsx:43-48 | A push moves exactly one tab in the swipe's direction, stays inside the bar and uses that tab's path. |
| TabGestures.InnerTabsNavigate | Animations/useTabGestures.tsx:34-48 | "left" navigates exactly from tabs after the first. "right" navigates exactly from tabs before the last. |
| TabGestures.ClassifySwipe | Animations/useTabGestures.tsx:62-72 | "left" exactly when `tx > 50` or `vx > 300`, with priority. Otherwise "right" exactly when `tx < -50` or `vx < -300`. Otherwise nothing. |
| TabGestures.SwipeMirror | Animations/useTabGestures.tsx:62-72 | Ignored gestures stay ignored when mirrored. A mirrored "right" is a "left". |
| TabGestures.OnPanEnd | Animations/useTabGestures.tsx:58-73 | An ignored gesture pushes nothing. Anything pushed is "/(tabs)/" plus the route of the neighbouring tab the swipe names: `current-1` for "left", `current+1` for "right". |
| PlayerView.FormatTime | components/Player.tsx:44-45 | A zero time prints "0:00". |
| PlayerView.ClockShape | components/Player.tsx:46-48 | For non-negative input: minutes are non-negative, seconds lie in 0..59, `60*m + s` is the whole seconds, and the seconds field is two digits reading as `s`. |
| PlayerView.FormatTimeRoundTrip | components/Player.tsx:44-49 | Reading the printed `m:ss` back gives the floor of any non-negative input, including "0:00" for 0. |
| PlayerView.LoopIcon | components/Player.tsx:52-61 | "repeat" exactly for `all`. "repeat-outline" for `one` and `none`. |
| PlayerView.LoopIconColor | components/Player.tsx:66-68 | "#666" exactly when the mode is `none`. "#FF4C29" otherwise. |
| PlayerView.LoopIndicatorDistinguishesModes | components/Player.tsx:52-68 | Icon and colour together identify the mode. |
| PlayerView.TrimStart | components/Player.tsx:93 | Drops exactly the leading whitespace. The result is a suffix that starts with a non-space. |
| PlayerView.TrimEnd | components/Player.tsx:93 | Drops exactly the trailing whitespace. The result is a prefix that ends with a non-space. |
| PlayerView.Trim | components/Player.tsx:93 | The result is empty exactly when the input is all whitespace. Otherwise it starts and ends with non-whitespace and is the input minus whitespace on both sides. |
| PlayerView.CreatePlaylistFromInput | components/Player.tsx:92-113 | An all-whitespace name is refused. Otherwise, with a fresh id, the playlists gain exactly one playlist named with the trimmed name and holding the current song. |
| Decimal.NatToString | components/Player.tsx:48 | Interpolating a whole number gives non-empty digits with no leading zero, one digit exactly below 10. |
| Decimal.ValueOfNatToString | components/Player.tsx:48 | The printed digits read back as the number. |

## Findings

| source | as written | input that shows it | evidently intended | confidence | as-written member | corrected member |
|---|---|---|---|---|---|---|
| context/PlayListContext.tsx:155 | writes the filtered songs to a misspelt `song` property, and filters with `=== songId`, so the playlist's `songs` never change | "My Favorites" holding song "s"; remove "s"; it still holds `[s]` | `songs: playlist.songs.filter(song => song.id !== songId)`, as in context/PlayerContext.tsx:312 | high (the playlist screen calls this version at app/playlist/[playlistId].tsx:63); not executed | Playlists.RemoveFromPlaylistAsWritten (with Playlists.RemoveAsWrittenCounterexample) | Playlists.RemoveFromPlaylist (with Playlists.AddThenRemoveRestores) |

## Left out

- The audio device (expo-audio): `replace`, `play`, `pause` and `seekTo` are log entries, and status snapshots are step inputs. `setAudioModeAsync` is not modelled.
- Engine.PlaySong: a device error is caught and logged by the source and is not modelled. Each call is one atomic step.
- React scheduling is not modelled: state batching, stale closures, dependency arrays, and un-awaited promises in the effect. Each operation and each poll is one atomic step over the state it reads.
- The `if (!player) return` guards are not modelled. `useAudioPlayer` always yields a player, so they never fire.
- AsyncStorage loading and saving of playlists and favourites is not modelled. This includes the extra save inside `deletePlaylist` and `JSON.parse`. It is persistence I/O.
- `Date.now()` ids and `new Date()` timestamps are parameters (`id`, `now`).
- Navigation (`router.push`) and gesture configuration (`Gesture.Pan` offsets, `runOnJS`) are not modelled. The pushed path is the result.
- PlayerView.FormatTime: NaN and IEEE rounding are not modelled. Times are exact reals, and the round trip is stated only for non-negative input. The function itself follows the source for negative input too.
- `Alert`, `console.log` and all JSX and styles are not modelled. The same goes for components/AddedMusic.tsx, components/SmallPlayer.tsx, components/Searchbar.tsx, Animations/AnimatedScreen.tsx and the screens under app/.
- Playlists.RemoveFromPlaylistAsWritten: the stray property is a field (`straySongs`) of the playlist record. Nothing in the source reads it.
