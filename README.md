# Backroom modpack site script: easter egg and language toggle

This project models the two stateful parts of the site's page script `script.js`:

- **The easter egg** (`script.js:153-242`). A 3-second interval draws a random number unless
  the cooldown is on. The trigger chance is 0.5, or 1 after a miss; a hit resets the miss
  count and a miss increments it. A hit reveals the overlay image: it makes six alternating
  filter writes at 200 ms intervals, starting bright, hides the image one second later and
  ends the cooldown ten seconds after that.
  - `EggRules` states this as transitions over a value `EggState`. The timers are discrete
    stages `Idle → Flashing(k) → Hiding → Cooldown → Idle`, the random draw is a parameter, and
    the presence of the overlay element is a parameter.
  - `EggTimer.EasterEgg` is the same logic as a class whose fields the callbacks update in
    place. Each method is specified by the transition it performs.
- **The two-locale text system** (`script.js:245-624`).
  - `LocaleTexts` holds the `languageTexts` table: one total function per locale over one type
    of property names, with the strings as written.
  - `PageRender` states what `updatePageLanguage` does to a page as a pure rendering of a
    `Dom` value. A `Dom` is the `lang` attribute, the title, the navigation links as
    (href, text) pairs, and a map from selector to the texts of the elements it matches.
  - `LocalePage.Page` is the page as the script mutates it. `UpdatePageLanguage`, the
    initialisation of the toggle and the click handler are each proved to produce that
    rendering.
- **`Startup`** models the script's two top-level calls (`script.js:627-630`) and the failure
  described under "Findings".

`Strings.Includes` is JavaScript's `String.prototype.includes` taken on code points; for
well-formed strings this agrees with JavaScript's search over UTF-16 code units.

## Model

| member | source | states |
|---|---|---|
| Strings.Includes | script.js:446-450 | definition of `includes` as an occurrence at some index; its contract states that an included string is no longer than the text and that the empty string is included everywhere; `IncludesIffScanFinds` relates it to a scan |
| Strings.IncludesIffScanFinds | script.js:446-450 | `includes` holds exactly when a left-to-right scan finds the substring at some position |
| LocaleTexts.Toggle | script.js:419 | the click flips 'en' and 'zh': the new locale always differs from the old one |
| LocaleTexts.ToggleInvolution | script.js:419 | two flips restore the locale |
| LocaleTexts.ToggledParity | script.js:409-426 | starting from the locale initialisation sets, n clicks give that locale when n is even and the other one when n is odd |
| LocaleTexts.Text | script.js:248-403 | definition: `languageTexts[l][k]`, dispatching to the record of the locale; the entries the rewrite relies on are stated by `DownloadLabels`, `AboutLabels` and `HomeLabels` |
| LocaleTexts.EnText | script.js:249-325 | definition: the `en` record, every property with its string as written; a total function over `Key`, so it names exactly the properties `ZhText` names |
| LocaleTexts.ZhText | script.js:326-402 | definition: the `zh` record, with the same properties as `EnText` |
| PageRender.DownloadLabels | script.js:256-333 | proof helper: the table's download label is "Download" in English and "下载" in Chinese |
| PageRender.AboutLabels | script.js:257-334 | proof helper: the table's about label is "About" in English and "关于" in Chinese |
| PageRender.HomeLabels | script.js:259-336 | proof helper: the table's back-to-home label is "Back to Home" in English and "返回主页" in Chinese |
| PageRender.Classify | script.js:446-452 | the priority chain: a `#download` anchor always gives the download label; an `#about` anchor gives the download or the about label; the home label only when the text has a back-to-home marker; no label only for links that have neither anchor and no back-to-home marker. Its other properties are stated by `Relabel` and `RenderLastWins` |
| PageRender.DownloadLabelRecognised | script.js:446 | a link that carries either locale's download label is classified as a download link |
| PageRender.AboutRecognised | script.js:446-448 | proof helper: a link that fails the download test but passes the about test is classified as an about link |
| PageRender.AboutLabelRecognised | script.js:446-448 | a link not anchored at `#download` that carries either locale's about label is classified as an about link |
| PageRender.HomeRecognised | script.js:446-450 | proof helper: a link that fails the first two tests and contains a back-to-home label is classified as a home link |
| PageRender.HomeByMissingChars | script.js:446-450 | proof helper: text lacking the characters needed for "Download", "下载", "About" and "关于", but containing a home label, reaches the third branch |
| PageRender.HomeLiteralRecognised | script.js:446-450 | "Back to Home" or "返回主页", on a link anchored at neither `#download` nor `#about`, is classified as a home link |
| PageRender.HomeLabelRecognised | script.js:446-451 | in either locale, a link relabelled as home is recognised as home again |
| PageRender.Relabel | script.js:444-453 | a recognised link takes the label of its kind in the locale; any other link is unchanged; the href is kept; the relabelled link is classified as the same kind, so a later switch still finds it |
| PageRender.Threshold | script.js:455-621 | the element count each block's guard needs: between 1 and 8, one for the single-element lookups and the `length >=` bound of each positional group; the values are read off by `BoundKeys` and `RenderedSlot` |
| PageRender.BoundKeys | script.js:455-621 | each selector block writes exactly its threshold's number of table properties: 2, 3, 4, 4, 5, 2, 3 and 8 for the positional groups, 1 for the single-element lookups |
| PageRender.Bindings | script.js:455-621 | the texts a block writes are as many as its threshold |
| PageRender.WriteGroup | script.js:484-621 | a guarded block is all-or-nothing: below the threshold nothing is written; at or above it, exactly the first n elements get the texts and later elements keep theirs |
| PageRender.WriteGroupTwice | script.js:484-621 | writing a group twice with as many texts gives the second write alone |
| PageRender.PageTitle | script.js:436-440 | the title is the download title exactly when the path contains `download.html`, otherwise the site title |
| PageRender.RelabelAll | script.js:443-453 | the forEach keeps the number of navigation links |
| PageRender.RenderSlots | script.js:455-621 | the rewrite neither adds nor removes elements: same selectors, same element counts |
| PageRender.Render | script.js:429-624 | definition of `updatePageLanguage` on a page value: `lang` is the locale's, the title is `PageTitle`'s, and no link or selector is added or removed; its properties are stated by `RenderedSlot`, `RenderLastWins`, `ToggleTwiceRestoresPage` and `SwitchToEnglish` |
| PageRender.RenderLastWins | script.js:429-624 | rendering in one locale and then another equals rendering the original page in the second one |
| PageRender.ToggleTwiceRestoresPage | script.js:417-426 | two toggles after a render leave the page's text exactly as the first render left it |
| PageRender.RenderedSlot | script.js:484-621 | after the rewrite, each selector's elements are untouched below its threshold; otherwise the first Threshold elements hold the locale's texts and the rest are kept |
| PageRender.SwitchToEnglish | script.js:409-426 | after the first click on a page initialised in Chinese, `lang` is "en" and every `#download` link reads "Download" |
| PageRender.RenderKeepsButton | script.js:456-459 | the rewrite neither creates nor removes the toggle button |
| PageRender.ToggleLabelRewriteIdempotent | script.js:413-415 | writing the toggle label once more right after the rewrite changes nothing |
| LocalePage.WriteSlot | script.js:484-621 | a block's write touches only its own selector, and only if that selector matches something |
| LocalePage.PartlyWritten | script.js:455-621 | the slots part-way through the blocks keep every selector |
| LocalePage.PartlyWrittenStep | script.js:455-621 | running one more block adds that block's write and changes nothing else |
| LocalePage.NothingWrittenYet | script.js:429 | before the first block nothing has been written |
| LocalePage.EveryBlockRuns | script.js:455-621 | the blocks of `updatePageLanguage` together cover every selector |
| LocalePage.AllBlocksWritten | script.js:455-621 | once every block has run, the slots are those the rendering gives |
| LocalePage.Page.constructor | script.js:245 | the page as loaded, with `currentLanguage` 'zh' and no listener |
| LocalePage.Page.UpdatePageLanguage | script.js:429-624 | the page becomes exactly its rendering in `currentLanguage` on its path; the locale and the listener are untouched |
| LocalePage.Page.WriteAllBlocks | script.js:455-621 | the selector blocks in order leave the slots as `RenderSlots` gives them and nothing else changed |
| LocalePage.Page.WriteHomeBlocks | script.js:455-495 | the toggle, logo, poster and home-download blocks each perform their guarded write |
| LocalePage.Page.WriteDownloadPageBlocks | script.js:497-555 | the download-page blocks each perform their guarded write |
| LocalePage.Page.WriteNotesAndFooterBlocks | script.js:556-576 | the important-notes and footer blocks each perform their guarded write |
| LocalePage.Page.WriteTutorialBlocks | script.js:577-621 | the tutorial-page blocks each perform their guarded write |
| LocalePage.Page.WriteSelector | script.js:484-488 | one block: element by element, the texts go into the first matches when there are enough of them; nothing else changes |
| LocalePage.Page.RelabelNavLinks | script.js:443-453 | the loop over the links leaves each link relabelled by the priority chain and the rest of the page as it was |
| LocalePage.Page.SetToggleLabel | script.js:413-415 | the button's text becomes the current locale's toggle label and nothing else changes |
| LocalePage.Page.InitLanguageToggle | script.js:405-427 | with the listener inside the null check: the locale is 'zh', the page is its Chinese rendering, and the listener is attached exactly when the button exists |
| LocalePage.Page.ClickLanguageToggle | script.js:417-426 | a click flips the locale and leaves the page as its rendering in the new locale, with the listener still attached |
| EggRules.Inv | script.js:153-242 | the invariant every transition keeps (at most one miss, cooldown exactly while a reveal is pending, glow in step with the flash count); it implies that the overlay is shown only during the cooldown and glows bright only while shown. It is kept by `TickKeepsInv`, `CallbackKeepsInv` and `RunKeepsInv` |
| EggRules.Init | script.js:153-161 | variables start with no cooldown, no misses and the overlay hidden; the interval runs exactly when the path does not contain `tutorial.html` |
| EggRules.TriggerChance | script.js:197 | the chance is a probability, and it is 1 exactly when a miss was counted |
| EggRules.Show | script.js:208-218 | without the overlay nothing changes; with it, the cooldown is on, the overlay is shown and flashing starts at write 0 |
| EggRules.OnTick | script.js:188-206 | a tick during cooldown (or with no timer) changes nothing; after a miss it always triggers and resets the counter; a miss only takes the counter from 0 to 1; a missing overlay leaves cooldown and stage as they were; a new cooldown starts a reveal with the counter reset |
| EggRules.FlashGlow | script.js:222-224 | write k is bright exactly when k is even |
| EggRules.OnCallback | script.js:220-241 | a reveal's timer: nothing happens when idle; the cooldown is cleared only from the cooldown stage; the overlay is hidden only from the hide stage, with the cooldown still on; a glow change is the flash write's; the miss counter is untouched |
| EggRules.InitInv | script.js:153-161 | the start state satisfies the invariant: at most one miss, cooldown exactly while a reveal is pending, and the glow matching the flash count |
| EggRules.TickKeepsInv | script.js:188-206 | every tick keeps the invariant |
| EggRules.CallbackKeepsInv | script.js:220-241 | every reveal timer keeps the invariant |
| EggRules.StepKeepsInv | script.js:188-241 | every event keeps the invariant |
| EggRules.RunKeepsInv | script.js:188-241 | any sequence of ticks and timer callbacks keeps the invariant, so the counter never exceeds 1 |
| EggRules.ForcedAfterMiss | script.js:197-203 | after a miss, the next evaluated tick is a hit whatever it draws |
| EggRules.NoTwoMissesInARow | script.js:197-205 | in any run, no two consecutive evaluated ticks are both misses |
| EggRules.Glows | script.js:220-226 | the glow history has one entry per callback, and entry i is the filter after the (i+1)-th firing |
| EggRules.RevealSequence | script.js:220-238 | a reveal writes six filters, bright, dim, bright, dim, bright, dim; the overlay is shown with the cooldown on through the sixth write; the hide leaves the cooldown on; only the next timer clears it, leaving the counter as it was |
| EggTimer.EasterEgg.constructor | script.js:153-161 | the variables and the interval are as `Init` gives them, and the invariant holds |
| EggTimer.EasterEgg.Tick | script.js:188-192 | the interval callback performs `OnTick` and keeps the invariant |
| EggTimer.EasterEgg.TriggerEasterEgg | script.js:196-206 | a draw below the chance reveals and resets the counter; otherwise only the counter grows by one |
| EggTimer.EasterEgg.ShowEasterEgg | script.js:208-218 | performs `Show`: returns early without the overlay, else sets the cooldown and starts flashing |
| EggTimer.EasterEgg.FlashTick | script.js:221-229 | one flash callback performs `OnCallback` and keeps the invariant |
| EggTimer.EasterEgg.HideTimeout | script.js:231-234 | the hide timeout performs `OnCallback` and keeps the invariant |
| EggTimer.EasterEgg.CooldownTimeout | script.js:236-238 | the cooldown timeout performs `OnCallback` and keeps the invariant |
| Startup.LoadAsWritten | script.js:405-427 | as written: the page is rendered in Chinese; without the toggle button the start-up aborts, no listener is attached and the easter egg's timer never starts |
| Startup.Load | script.js:627-630 | as intended: no abort; the listener is attached exactly when the button exists; the easter egg runs exactly off the tutorial page |
| Startup.WithButtonAsIntended | script.js:413-417 | on a page with the toggle button, the code as written does what was intended |
| Startup.MissingButtonStopsEasterEgg | script.js:417 | on `/index.html` without the button, the intended start-up runs the easter egg's timer and the code as written does not |

## Left out

- Smooth scrolling, the scroll-reveal observer, the Escape and digit shortcuts, mouse parallax, the flicker, the typewriter effect and the fade-in (`script.js:1-150`, `633-654`). They are presentation only.
- Real time. The 3000 ms, 200 ms, 1000 ms and 10000 ms delays are discrete stages and callbacks. No model of interleaving is attempted beyond the invariant holding for any sequence of ticks and callbacks.
- `Math.random`. It is a parameter `draw` in [0, 1).
- Element creation, CSS strings, the image source and `appendChild` (`script.js:163-181`). The overlay's presence is a boolean parameter, and its state is reduced to shown/hidden and bright/dim.
- DOM structure. A selector is a name; its matches are a sequence of texts. Selectors are assumed to match disjoint elements. An absent `href` attribute reads as the empty string.
- Lone surrogates. A Dafny `string` is a sequence of Unicode scalar values, so a JavaScript string holding an unpaired UTF-16 surrogate cannot be represented; every literal of the table lies in the Basic Multilingual Plane.
- Four table properties are never read by `updatePageLanguage`: `downloadPageSubtitle`, `fileSize`, `version` and `launcherErrorInstruction1`. They are in the table and nothing else uses them.
- Identical key sets of the `en` and `zh` records. These hold by construction: both records are total functions over one type `Key`, so a property missing from either would be a missing case. No separate lemma states it.
- Short groups. A group with fewer elements than its threshold is not updated at all, rather than updated as far as it goes (`script.js:485`, `491`, `541`, `549`, `563`, `599`, `605`, `612`); the model follows the code.
- Missing overlay. A trigger with no overlay still resets `consecutiveMisses` to 0 (`script.js:201-202`, `210`); the model follows the code.
- EggRules.OnTick: its contract does not say how the draw is compared with the chance. `EggTimer.EasterEgg.TriggerEasterEgg` states that comparison.
- PageRender.RelabelAll: its contract states only the length. What each link becomes is stated by `PageRender.Relabel` and used through `RenderLastWins` and `SwitchToEnglish`.
- PageRender.RenderSlots: its contract states keys and counts only. What each selector's elements become is stated by `PageRender.RenderedSlot`.

## Findings

| source | as written | input that shows it | evidently intended | confidence | as-written member | corrected member |
|---|---|---|---|---|---|---|
| script.js:417 | `toggleBtn.addEventListener` is called outside the `if (toggleBtn)` of line 413, so a page without `#language-toggle` throws a TypeError and the top-level `initEasterEgg()` of line 630 never runs | a page with no element `#language-toggle` at `/index.html` | attach the listener only when the button exists, and start the easter egg on every page but the tutorial | not executed | Startup.LoadAsWritten, Startup.MissingButtonStopsEasterEgg | Startup.Load, LocalePage.Page.InitLanguageToggle |
