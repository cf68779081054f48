/**
 * The script's two top-level calls, `initLanguageToggle()` and then `initEasterEgg()`, as
 * written and as evidently intended. As written, the click listener is attached outside the
 * null check on the toggle button, so on a page without `#language-toggle` the call throws,
 * the rest of the script is abandoned and the easter egg never starts.
 */
module Startup {
  import opened Strings
  import opened LocaleTexts
  import opened PageRender
  import opened EggRules

  /** What the page holds once the script's top-level statements have run. */
  datatype Loaded = Loaded(page: Dom, lang: Lang, toggleListening: bool, egg: EggState,
                           aborted: bool)

  /** The easter egg's variables as declared, before `initEasterEgg` runs. */
  const Unstarted: EggState := EggState(false, false, 0, Idle, false, Dim)

  /**
   * The start-up as written: the page is rendered in Chinese; without a toggle button the
   * unguarded `addEventListener` throws, so the easter egg keeps its declared values.
   */
  function LoadAsWritten(d: Dom, path: string): (r: Loaded)
    ensures r.page == Render(d, InitialLang, path) && r.lang == InitialLang
    ensures r.aborted <==> !ButtonPresent(d)
    ensures r.aborted ==> !r.toggleListening && !r.egg.timerRunning && Inv(r.egg)
    ensures !r.aborted ==> r.toggleListening && r.egg == Init(path)
  {
    var page := Render(d, InitialLang, path);
    if ButtonPresent(d) then Loaded(page, InitialLang, true, Init(path), false)
    else Loaded(page, InitialLang, false, Unstarted, true)
  }

  /**
   * The start-up with the listener attached inside the null check: it never aborts, the
   * listener is attached exactly when the button exists, and the easter egg starts on every
   * page but the tutorial.
   */
  function Load(d: Dom, path: string): (r: Loaded)
    ensures r.page == Render(d, InitialLang, path) && r.lang == InitialLang && !r.aborted
    ensures r.toggleListening <==> ButtonPresent(d)
    ensures r.egg.timerRunning <==> !Includes(path, "tutorial.html")
    ensures Inv(r.egg)
  {
    Loaded(Render(d, InitialLang, path), InitialLang, ButtonPresent(d), Init(path), false)
  }

  /** On a page that has the toggle button, the script as written does what was intended. */
  lemma WithButtonAsIntended(d: Dom, path: string)
    requires ButtonPresent(d)
    ensures LoadAsWritten(d, path) == Load(d, path)
  {
  }

  /**
   * A page without the toggle button, at a path that is not the tutorial: the intended
   * start-up runs the easter egg's timer, the start-up as written does not.
   */
  lemma MissingButtonStopsEasterEgg()
    ensures var d := Dom("", "", [], map[]);
            LoadAsWritten(d, "/index.html").aborted
            && !LoadAsWritten(d, "/index.html").egg.timerRunning
            && Load(d, "/index.html").egg.timerRunning
  {
    MissingCharExcludes("/index.html", "tutorial.html", 'u');
  }
}
