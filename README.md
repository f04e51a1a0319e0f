# Build an Atom — a verified model of its sequential core

This project models the logic that sits under the scene graph of PhET's
"Build an Atom" simulation:

- the **Build an Atom tab model**. It fills three particle buckets. It also
  has the handler that decides, when the user releases a proton, whether the
  proton joins the atom or goes back to its bucket;
- the **nucleus z-order relayering**. Nucleon views whose destination lies
  inside an electron shell are moved to the top of their layer, farthest
  first, so central nucleons are drawn in front. The tab view does this with
  the outer shell and the game's schematic atom with the inner shell;
- the **schematic atom construction** of the game. It makes one particle and
  one view per proton, neutron and electron of a number atom;
- the **base game state**. It rejects every user event and does not step.
  There are two static instances, `choosingLevel` and `levelCompleted`;
- the **challenge view**. It maps each challenge state to the visible button,
  the feedback face, the point text and the answer area's interactivity. It
  also routes button presses to the challenge;
- the **number entry**: a value with up and down buttons, each enabled only
  strictly inside its bound, and an optional plus sign;
- the **interactive symbol**, which is built from number entries. It covers
  the option defaults, the initial values, the entry ranges, the blank-symbol
  rule, the fixed charge text and `reset`.

The modules are:

- `NucleusLayering` states the relayering as a function on sequences, with
  lemmas that say what it does.
- `SceneLayer.Layer` runs the relayering in place on a child list, the way
  the source does with `removeChild` and `addChild`.
- Each class method is proved against a specification function of the old
  state.

Distances are compared squared: `d < R` is stated as `d² < R²`, and sorting
by `-d` as sorting by `-d²`. This needs non-negative radii, which shell
radii are.

Observer wiring (`link`, `on`) is written as explicit calls. A property
notifies its listeners only when its value changes, and `link` runs the
listener once at once.

## Model

| member | source | states |
|---|---|---|
| `BuildAnAtomModel.BuildAnAtomModel.constructor` | js/model/BuildAnAtomModel.js:16-108 | The atom is at the origin. `nucleons` holds 10 protons then 13 neutrons, and `electrons` holds 10 electrons. Each particle is in its own kind's bucket, in creation order, and the atom is empty. Every particle is new and none is listed twice, nor in both lists. The buckets are sized for the nucleon and electron radii. |
| `BuildAnAtomModel.BuildAnAtomModel.AddProtons` | js/model/BuildAnAtomModel.js:75-92 | Ten new protons, each in the proton bucket in creation order and none in the atom. Linking the handler places nothing, because each proton is already in its bucket. |
| `BuildAnAtomModel.BuildAnAtomModel.AddNeutrons` | js/model/BuildAnAtomModel.js:95-99 | Thirteen new neutrons follow the protons in `nucleons` and fill the neutron bucket in order. The protons are kept. |
| `BuildAnAtomModel.BuildAnAtomModel.AddElectrons` | js/model/BuildAnAtomModel.js:102-106 | Ten new, distinct electrons fill `electrons` and the electron bucket in order. |
| `BuildAnAtomModel.SphereBucket.constructor` | js/model/BuildAnAtomModel.js:35-66 | A bucket starts empty and keeps the particle radius it was given: nucleon radius 10 for protons and neutrons, electron radius 8 for electrons. |
| `BuildAnAtomModel.SphereBucket.AddParticleFirstOpen` | js/model/BuildAnAtomModel.js:79 | The particle is appended to the bucket. |
| `BuildAnAtomModel.SphereBucket.AddParticleNearestOpen` | js/model/BuildAnAtomModel.js:88 | The particle is appended to the bucket. |
| `BuildAnAtomModel.Atom.constructor` | js/model/BuildAnAtomModel.js:32 | The atom is empty and centred at the given point. |
| `BuildAnAtomModel.Atom.AddParticle` | js/model/BuildAnAtomModel.js:85 | The particle is appended to the atom. |
| `BuildAnAtomModel.ReleasePlacement` | js/model/BuildAnAtomModel.js:81-90 | The decision of the release handler. It has no ensures of its own: its three outcomes are characterised by `ReleasePlacementCases` and `ReleaseByDistance`. |
| `BuildAnAtomModel.BuildAnAtomModel.ReleaseHandler` | js/model/BuildAnAtomModel.js:81-93 | The proton is appended to the atom or to its bucket exactly as `ReleasePlacement` decides for its flag, its bucket membership and its position. Nothing else is added. At most one of the atom and the bucket grows, and together they grow by one exactly when the proton is free and outside its bucket. |
| `BuildAnAtomModel.BuildAnAtomModel.SetUserControlled` | js/model/BuildAnAtomModel.js:77-108 | The flag is set. A placement decision runs only when the particle is one of the model's protons and the flag actually changed. Neutrons, electrons and unchanged flags leave the atom and the buckets as they were. The particle's position and destination are unchanged, and at most one of the atom and the bucket grows. |
| `BuildAnAtomModel.ReleasePlacementCases` | js/model/BuildAnAtomModel.js:19-91 | Each outcome as an if-and-only-if: no change iff the proton is held or already in the bucket. Otherwise it joins the atom iff its squared distance from the origin is below 100², and returns to the bucket iff it is at least 100². |
| `BuildAnAtomModel.ReleaseOnCaptureCircle` | js/model/BuildAnAtomModel.js:84-90 | A proton exactly 100 from the origin returns to the bucket, and one at distance √5000 joins the atom. |
| `BuildAnAtomModel.ReleaseByDistance` | js/model/BuildAnAtomModel.js:84 | For a proton at distance `d` from the origin, the squared test sends it into the atom iff `d < 100` and back to the bucket iff `d >= 100`, as the source's distance test does. |
| `BuildAnAtomModel.CaptureIsMeasuredFromAtomCentre` | js/model/BuildAnAtomModel.js:32-84 | The distance tested against the origin equals the distance to the atom's centre, for every position. |
| `Geometry.DistanceSquared` | js/model/BuildAnAtomModel.js:84 | A squared distance is never negative. |
| `Geometry.SquareMonotone` | js/buildanatom/view/BuildAnAtomTabView.js:77 | For non-negative lengths, `d < r` iff `d^2 < r^2`. |
| `NucleusLayering.RelayerShape` | js/buildanatom/view/BuildAnAtomTabView.js:75-90 | With at most three children in the nucleus the order is unchanged. Otherwise the result is the outside children in their old order, followed by the nucleus children stably sorted farthest first. |
| `NucleusLayering.Relayer` | js/buildanatom/view/BuildAnAtomTabView.js:75-90 | The child order after one relayering. It has no ensures of its own; what it does is stated by `RelayerShape` and the `Relayer…` lemmas below. |
| `NucleusLayering.InNucleus` | js/buildanatom/view/BuildAnAtomTabView.js:76-78 | The filter of the children inside the nucleus, in order. Its members are characterised by `InNucleusMembers`. |
| `NucleusLayering.SortFarthestFirst` | js/buildanatom/view/BuildAnAtomTabView.js:81-84 | The stable farthest-first sort. `SortIsPermutation`, `SortIsFarthestFirst` and `SortIsStable` state that it is a stable sort. |
| `NucleusLayering.Insert` | js/buildanatom/view/BuildAnAtomTabView.js:81-84 | One insertion step of the sort. `InsertIsPermutation`, `InsertKeepsFarthestFirst` and `InsertAtDistSq` state what it does. |
| `NucleusLayering.MoveAllToEnd` | js/buildanatom/view/BuildAnAtomTabView.js:85-88 | The remove-then-add loop over a list of children. `MoveAllToEndShape` and `MoveAllToEndPermutation` state its result. |
| `NucleusLayering.RelayerIsPermutation` | js/buildanatom/view/BuildAnAtomTabView.js:85-88 | Relayering only reorders: the result is a permutation of the children. |
| `NucleusLayering.RelayerKeepsOutsideOrder` | js/buildanatom/view/BuildAnAtomTabView.js:85-88 | The children outside the nucleus keep their relative order. |
| `NucleusLayering.RelayerSplits` | js/buildanatom/view/BuildAnAtomTabView.js:80-88 | When relayering happens, the nucleus children of the result are the sorted nucleus children of the input. |
| `NucleusLayering.RelayerPutsNucleusOnTop` | js/buildanatom/view/BuildAnAtomTabView.js:73-88 | When relayering happens, every child outside the nucleus precedes every child inside it. |
| `NucleusLayering.RelayerNucleusFarthestFirst` | js/buildanatom/view/BuildAnAtomTabView.js:81-84 | The nucleus children end in non-increasing distance, so the most central is last, which is topmost. |
| `NucleusLayering.RelayerNucleusStable` | js/buildanatom/view/BuildAnAtomTabView.js:81-84 | Nucleus children at equal distance keep their prior relative order. |
| `NucleusLayering.RelayerIdempotent` | js/buildanatom/view/BuildAnAtomTabView.js:75-90 | Relayering twice gives the same order as relayering once. |
| `NucleusLayering.SortIsPermutation` | js/buildanatom/view/BuildAnAtomTabView.js:81-84 | The farthest-first sort is a permutation of its input. |
| `NucleusLayering.SortIsFarthestFirst` | js/buildanatom/view/BuildAnAtomTabView.js:81-84 | The sort yields non-increasing squared distance. |
| `NucleusLayering.SortIsStable` | js/buildanatom/view/BuildAnAtomTabView.js:81-84 | For every distance, the children at that distance appear in the same order before and after the sort. |
| `NucleusLayering.SortOfFarthestFirst` | js/buildanatom/view/BuildAnAtomTabView.js:81-84 | Sorting a list that is already farthest first leaves it unchanged. |
| `NucleusLayering.FarthestFirstPairwise` | js/buildanatom/view/BuildAnAtomTabView.js:81-84 | A farthest-first list has every earlier child at least as far as every later child. |
| `NucleusLayering.InsertIsPermutation` | js/buildanatom/view/BuildAnAtomTabView.js:81-84 | One insertion step adds exactly the new child. |
| `NucleusLayering.InsertKeepsFarthestFirst` | js/buildanatom/view/BuildAnAtomTabView.js:81-84 | Inserting into a farthest-first list keeps it farthest first. |
| `NucleusLayering.InsertAtDistSq` | js/buildanatom/view/BuildAnAtomTabView.js:81-84 | The inserted child goes in front of the children at its own distance, and their order is kept. |
| `NucleusLayering.InNucleusMembers` | js/buildanatom/view/BuildAnAtomTabView.js:76-78 | A child passes the filter iff it is a child whose squared distance is strictly below the squared radius. |
| `NucleusLayering.InNucleusByDistance` | js/buildanatom/view/BuildAnAtomTabView.js:76-78 | For a non-negative radius `R`, a child at distance `d` passes the squared filter iff it is a child and `d < R`, which is the views' test. |
| `NucleusLayering.NucleusSplit` | js/buildanatom/view/BuildAnAtomTabView.js:76-78 | The children inside and outside the nucleus together are exactly the children. |
| `NucleusLayering.InNucleusAllIn` | js/buildanatom/view/BuildAnAtomTabView.js:76-78 | Every child the filter keeps lies inside the nucleus. |
| `NucleusLayering.OutsideNucleusAllOut` | js/buildanatom/view/BuildAnAtomTabView.js:76-78 | Every child the filter drops lies at or beyond the radius. |
| `NucleusLayering.MoveAllToEndShape` | js/buildanatom/view/BuildAnAtomTabView.js:85-88 | Moving a list of distinct children to the end one by one gives the other children in order, followed by the moved ones in the order they were moved. |
| `NucleusLayering.MoveAllToEndPermutation` | js/buildanatom/view/BuildAnAtomTabView.js:85-88 | The remove-then-add loop keeps exactly the same children. |
| `NucleusLayering.Remove` | js/buildanatom/view/BuildAnAtomTabView.js:86 | `removeChild` takes out exactly one occurrence of the child. |
| `SceneLayer.Layer.AddChild` | js/buildanatom/view/BuildAnAtomTabView.js:87 | A child that is not yet present is appended on top, and the children stay distinct. |
| `SceneLayer.Layer.RemoveChild` | js/buildanatom/view/BuildAnAtomTabView.js:86 | The child is removed, it is no longer a child, and the others keep their order. |
| `SceneLayer.Layer.MoveToTop` | js/buildanatom/view/BuildAnAtomTabView.js:85-88 | Remove then add moves the child to the end and keeps the same children. |
| `SceneLayer.Layer.MoveAllToTop` | js/buildanatom/view/BuildAnAtomTabView.js:85-88 | The loop leaves the children as `MoveAllToEnd` of the old children and the moved list. |
| `SceneLayer.Layer.RelayerNucleus` | js/buildanatom/view/BuildAnAtomTabView.js:75-90 | The filter, sort and move loop leave the child list equal to `Relayer` of the old list, and the children stay distinct. |
| `BuildAnAtomTabView.DestinationDistSqs` | js/buildanatom/view/BuildAnAtomTabView.js:77-83 | Each view's key is the squared distance from its particle's destination to the atom's position. |
| `BuildAnAtomTabView.BuildAnAtomTabView.constructor` | js/buildanatom/view/BuildAnAtomTabView.js:59-68 | The nucleon layer holds one view per nucleon, in the nucleons' order. It requires the particle atom's shell radii to be non-negative. |
| `BuildAnAtomTabView.BuildAnAtomTabView.RelayerNucleus` | js/buildanatom/view/BuildAnAtomTabView.js:75-90 | The nucleon layer is relayered with the outer electron shell as the bound, using the destinations at the time of the call. |
| `BuildAnAtomTabView.BuildAnAtomTabView.NucleusReconfigured` | js/buildanatom/view/BuildAnAtomTabView.js:92-94 | Each `nucleusReconfigured` event relayers the nucleus exactly once. |
| `Particles.ParticleAtom.AddParticle` | js/game/view/NonInteractiveSchematicAtomNode.js:57 | The particle is appended to the atom, and the atom's position is unchanged. |
| `Particles.ParticleAtom.constructor` | js/game/view/NonInteractiveSchematicAtomNode.js:32 | A particle atom is empty, at the given position, with the given shell radii. It requires both radii to be non-negative, and then its `ShellRadiiNonNegative` holds. |
| `NonInteractiveSchematicAtomNode.NonInteractiveSchematicAtomNode.CreateAndAddParticle` | js/game/view/NonInteractiveSchematicAtomNode.js:51-63 | One round of the loop: one particle of the type, added to the atom, and its view on the layer. The particle list and the view list grow together. The earlier particles and views are kept as a prefix, and the new particle and view are fresh. |
| `NonInteractiveSchematicAtomNode.NonInteractiveSchematicAtomNode.CreateAndAddParticles` | js/game/view/NonInteractiveSchematicAtomNode.js:50-64 | Exactly `number` particles of the type are appended to the atom, with `number` views on the layer. The layer and the atom stay index-aligned with the particle list. The earlier particles and views are kept as a prefix, and every added particle and view is fresh. |
| `NonInteractiveSchematicAtomNode.NonInteractiveSchematicAtomNode.CreateAndAddAllParticles` | js/game/view/NonInteractiveSchematicAtomNode.js:67-69 | The particle types are the atom's protons, then neutrons, then electrons. |
| `NonInteractiveSchematicAtomNode.NonInteractiveSchematicAtomNode.RelayerNucleus` | js/game/view/NonInteractiveSchematicAtomNode.js:74-87 | The particle layer is relayered with the inner electron shell as the bound. |
| `NonInteractiveSchematicAtomNode.NonInteractiveSchematicAtomNode.constructor` | js/game/view/NonInteractiveSchematicAtomNode.js:32-87 | The particles follow `ParticleOrder` of the number atom. The atom holds exactly them, each view draws the corresponding particle, and the layer is the relayering of the views by the inner shell. It requires non-negative shell radii. |
| `NonInteractiveSchematicAtomNode.ParticleOrderCounts` | js/game/view/NonInteractiveSchematicAtomNode.js:67-69 | The creation order has as many entries as the atom has particles, and exactly the atom's count of each kind. |
| `NonInteractiveSchematicAtomNode.ParticleOrder` | js/game/view/NonInteractiveSchematicAtomNode.js:67-69 | Protons, then neutrons, then electrons. Its counts are stated by `ParticleOrderCounts`. |
| `NonInteractiveSchematicAtomNode.RepeatCount` | js/game/view/NonInteractiveSchematicAtomNode.js:51 | `number` rounds of one type give exactly `number` particles of that type and none of another. |
| `BAAGameState.HandleEvent` | js/game/model/BAAGameState.js:42-78 | Every user event sent to a base state fails. The error message begins with the name of the function called. |
| `BAAGameState.Step` | js/game/model/BAAGameState.js:84-86 | A step leaves the state as it was, for every time increment. |
| `BAAGameState.StaticStatesRejectEverything` | js/game/model/BAAGameState.js:23-91 | `choosingLevel` and `levelCompleted` are two different base states, and both reject every event. |
| `BAAGameState.EventNamesDistinct` | js/game/model/BAAGameState.js:42-78 | Two events have the same function name iff they go through the same API function. |
| `BAAGameState.ErrorIdentifiesEvent` | js/game/model/BAAGameState.js:42-78 | Two rejections carry the same error iff they come through the same function, whatever the states and arguments. |
| `ChallengeView.OnlyShownButtonVisible` | js/game/view/ChallengeView.js:138-179 | After a state change, a button is visible iff it is the state's button: check, next, try again, show answer, or next. A state without a handler shows none. |
| `ChallengeView.ApplyHandler` | js/game/view/ChallengeView.js:138-171 | The state-change handler table. It has no ensures of its own; `OnlyShownButtonVisible`, `ExactlyOneButtonVisible`, `InteractiveOnlyWhilePresenting` and `FaceFeedback` state what it shows. |
| `ChallengeView.AfterStateChange` | js/game/view/ChallengeView.js:174-180 | Hide everything, then the state's handler. Its properties are stated by the lemmas above. |
| `ChallengeView.ButtonCalls` | js/game/view/ChallengeView.js:71-117 | What each button's listener calls on the challenge. `PressButton` is proved against it. |
| `ChallengeView.ExactlyOneButtonVisible` | js/game/view/ChallengeView.js:138-179 | Exactly one button is visible in each of the five handled states, and none in an unhandled state. |
| `ChallengeView.InteractiveOnlyWhilePresenting` | js/game/view/ChallengeView.js:130-171 | In a handled state the answer area is pickable iff the state is presenting the challenge. An unhandled state leaves pickability unchanged. |
| `ChallengeView.FaceFeedback` | js/game/view/ChallengeView.js:143-179 | The face is visible iff the state is solved, try again or attempts exhausted. When solved it smiles and its text is '+' followed by the point value, which reads back as that value. After a wrong answer it frowns with empty text. Otherwise its expression and text are kept. |
| `ChallengeView.ShownIndependentOfHistory` | js/game/view/ChallengeView.js:120-179 | Because everything is hidden first, which buttons and whether the face are shown depends only on the new state. |
| `ChallengeView.ChallengeView.HideButtonsAndFace` | js/game/view/ChallengeView.js:120-125 | The loop hides all four buttons, then the face is hidden. Nothing else changes. |
| `ChallengeView.ChallengeView.SetAnswerNodeInteractive` | js/game/view/ChallengeView.js:130-132 | Only the answer area's pickability changes. |
| `ChallengeView.ChallengeView.OnChallengeStateChanged` | js/game/view/ChallengeView.js:137-180 | The display becomes `AfterStateChange` of the old display. The view's own clear-answer and display-answer functions are called as the state's handler does. The solved state's point text uses the challenge's point value at the time of the change. |
| `ChallengeView.ChallengeView.SetChallengeState` | js/game/view/ChallengeView.js:174-180 | The linked function runs only when the state actually changes. The point text uses the current point value, which is unchanged. |
| `ChallengeView.ChallengeView.SetPointValue` | js/game/view/ChallengeView.js:146 | The challenge's point value changes and nothing is redrawn. The next solved state shows the new value. |
| `ChallengeView.SolvedAfterTryAgainShowsHalvedValue` | js/game/view/ChallengeView.js:146 | A view created with 2 points that goes through try again, a halving to 1, and a correct answer shows "+1". |
| `ChallengeView.ChallengeView.PressButton` | js/game/view/ChallengeView.js:71-117 | A visible check button calls the view's `checkAnswer`. Visible next, try-again and show-answer buttons call exactly `next`, `tryAgain` and `displayCorrectAnswer` on the challenge. A hidden button does nothing. |
| `ChallengeView.ChallengeView.constructor` | js/game/view/ChallengeView.js:62-180 | The face starts hidden with text "+0". Everything is hidden, then the handler for the initial state runs once. |
| `NumberText.ParseNatToString` | js/game/view/NumberEntryNode.js:67 | The decimal text of a natural number reads back as that number. |
| `NumberText.ParseIntToString` | js/game/view/NumberEntryNode.js:67 | The decimal text of an integer, with '-' when negative, reads back as that integer. |
| `NumberText.DisplayTextMeaning` | js/game/view/NumberEntryNode.js:66-67 | The entry text starts with '+' iff the plus sign is requested and the value is positive, and with '-' iff the value is negative. It reads back as the value. |
| `NumberText.DisplayText` | js/game/view/NumberEntryNode.js:66-67 | The entry text. It has no ensures of its own; `DisplayTextMeaning` states its sign rule and that it reads back as the value. |
| `NumberText.IntToString` | js/game/view/NumberEntryNode.js:67 | The decimal text of an integer. `ParseIntToString` states that it reads back as the integer. |
| `NumberEntryNode.WithDefaults` | js/game/view/NumberEntryNode.js:37-42 | Fills absent options with no plus sign and infinite bounds. `GivenOptionsKept` and `DefaultsAlwaysEnabled` state the two cases. |
| `NumberEntryNode.DefaultsAlwaysEnabled` | js/game/view/NumberEntryNode.js:37-76 | Without options there is no plus sign, and both buttons are enabled for every value. |
| `NumberEntryNode.GivenOptionsKept` | js/game/view/NumberEntryNode.js:37-42 | Options that are given override the defaults. |
| `NumberEntryNode.StepKeepsRange` | js/game/view/NumberEntryNode.js:46-76 | From a value in [min, max], a step up while up is enabled, or down while down is enabled, stays in [min, max]. |
| `NumberEntryNode.NumberEntryNode.constructor` | js/game/view/NumberEntryNode.js:37-77 | Defaults are filled in, and the text and enabled flags match the value. |
| `NumberEntryNode.NumberEntryNode.ValueChanged` | js/game/view/NumberEntryNode.js:64-77 | The text is the value, with '+' when requested and positive. Up is enabled iff value < max, and down iff value > min. |
| `NumberEntryNode.NumberEntryNode.PressUp` | js/game/view/NumberEntryNode.js:46-48 | An enabled up button adds one to the value and keeps the display in sync. A value within range stays within range. |
| `NumberEntryNode.NumberEntryNode.PressDown` | js/game/view/NumberEntryNode.js:52-54 | An enabled down button subtracts one from the value and keeps the display in sync. A value within range stays within range. |
| `NumberEntryNode.NumberProperty.Reset` | js/game/view/InteractiveSymbolNode.js:188-190 | A property's reset returns it to the value it was created with. |
| `InteractiveSymbolNode.DefaultsNotInteractive` | js/game/view/InteractiveSymbolNode.js:45-49 | All three interactive flags default to false. |
| `InteractiveSymbolNode.WithDefaults` | js/game/view/InteractiveSymbolNode.js:45-49 | Fills absent flags with false. `DefaultsNotInteractive` states the all-absent case. |
| `InteractiveSymbolNode.InitialValue` | js/game/view/InteractiveSymbolNode.js:51-62 | A number starts at 0 when interactive and at the atom's value otherwise. The constructor's ensures state this for all three numbers. |
| `InteractiveSymbolNode.ElementText` | js/game/view/InteractiveSymbolNode.js:92-97 | One element text. `ElementTextBlankRule` states the blank rule. |
| `InteractiveSymbolNode.ChargeText` | js/game/view/InteractiveSymbolNode.js:162-163 | The fixed charge text. `ChargeTextMeaning` states its sign rule and that it reads back as the charge. |
| `InteractiveSymbolNode.EntryRanges` | js/game/view/InteractiveSymbolNode.js:105-159 | Proton count and mass number are entered in [0, 99] without a sign. Charge is entered in [-99, 99] with a plus sign, and the starting value 0 lies in range. |
| `InteractiveSymbolNode.ElementTextBlankRule` | js/game/view/InteractiveSymbolNode.js:92-97 | The symbol and name are blank when the proton count is not positive, and looked up otherwise. |
| `InteractiveSymbolNode.ChargeTextMeaning` | js/game/view/InteractiveSymbolNode.js:162-163 | A fixed charge is shown with '+' iff positive and '-' iff negative, as the charge entry would show it, and reads back as the charge. |
| `InteractiveSymbolNode.InteractiveSymbolNode.UpdateElement` | js/game/view/InteractiveSymbolNode.js:92-97 | The symbol and caption are those of the given proton count. |
| `InteractiveSymbolNode.InteractiveSymbolNode.constructor` | js/game/view/InteractiveSymbolNode.js:45-170 | Each number starts at 0 when interactive and at the answer atom's value otherwise. Each number has an entry with its range, or a fixed text. The element texts follow the proton count. |
| `InteractiveSymbolNode.InteractiveSymbolNode.PressProtonCountButton` | js/game/view/InteractiveSymbolNode.js:104-115 | A press on the proton count entry steps the value within [0, 99], and the element texts follow it. |
| `InteractiveSymbolNode.InteractiveSymbolNode.Reset` | js/game/view/InteractiveSymbolNode.js:187-191 | All three values return to their construction-time values. The entries stay in sync, and fixed texts and element texts of a fixed proton count are unchanged. |
| `InteractiveSymbolNode.InteractiveSymbolNode.ResetProtonCount` | js/game/view/InteractiveSymbolNode.js:188 | The proton count returns to its initial value and the other two numbers are unchanged. A fixed proton count leaves the element texts as they were. |
| `InteractiveSymbolNode.InteractiveSymbolNode.ResetMassNumber` | js/game/view/InteractiveSymbolNode.js:189 | The mass number returns to its initial value and the other two numbers are unchanged. |
| `InteractiveSymbolNode.InteractiveSymbolNode.ResetCharge` | js/game/view/InteractiveSymbolNode.js:190 | The charge returns to its initial value and the other two numbers are unchanged. |

## Left out

- Layout, scaling, fonts, colours and touch areas are left out; they are floating-point rendering details.
- Audio feedback, the face's drawing, tandem/phet-io instrumentation, `dispose` and `console.log` are left out, since they have no effect on the modelled state.
- The square root in `Vector2.distance` is left out. Distances are compared squared; `SquareMonotone`, `InNucleusByDistance` and `ReleaseByDistance` show that this agrees with the source, given that shell radii are non-negative, which the `ParticleAtom` constructor requires.
- The slot lattice of `SphereBucket` is not part of this model, and neither are the internals of `Atom`. A bucket is a list with membership, first-open add and nearest-open add; an atom is a list with add.
- `ParticleAtom`'s destination assignment and `moveAllParticlesToDestination` are not part of this model. Destinations are inputs of the relayering, and the radii are constructor parameters.
- `AtomIdentifier.getSymbol` and `getName` are a foreign lookup table. They are function-valued parameters.
- `BAAGameChallenge` and `BAAChallengeState` are not part of this model, including the challenge transitions and scoring. The view's reaction to a challenge call is whatever the challenge state becomes, modelled by `SetChallengeState`.
- The options object passed with an evaluated answer is not modelled.
- `BAAQueryParameters` parsing through `QueryStringMachine` is left out. Only the default of `challengesPerLevel` is kept, as `SharedConstants.DEFAULT_CHALLENGES_PER_LEVEL`.
- The electron layer of the tab view is left out: it is never relayered.
- The scene graph's refusal of input on hidden or disabled buttons is assumed, as a guard in `PressButton`, `PressUp` and `PressDown`.
- The view's `clearAnswer`, `displayCorrectAnswer` and `checkAnswer` do nothing in the base class. Their calls are recorded in order, not executed.
- `NumberText.IntToString` does not model JavaScript's exponent notation for magnitudes of 10²¹ and more.
- `NumberEntryNode.NumberEntryNode.PressUp`: the value is unbounded; JavaScript's loss of integer precision beyond 2⁵³ is not modelled.
- `ChallengeView.ChallengeView.PressButton`: the point value is an integer, so `'+' + pointValue` is the integer's decimal text; fractional point values are not modelled.
