/**
 * The page as the language system changes it in place: `currentLanguage`, the document's
 * `lang` and title, the navigation links and the selector-bound text slots, with
 * `updatePageLanguage`, the initialisation of the toggle and the toggle's click handler.
 * Each method is specified by the pure rendering of PageRender.
 */
module LocalePage {
  import opened Strings
  import opened LocaleTexts
  import opened PageRender

  /** The guarded write of vals into the elements s matches; nothing when s matches nothing. */
  function WriteSlot(m: map<Selector, seq<string>>, s: Selector, vals: seq<string>)
    : (r: map<Selector, seq<string>>)
    ensures r.Keys == m.Keys
    ensures s in m ==> r == m[s := WriteGroup(m[s], vals)]
    ensures s !in m ==> r == m
  {
    if s in m then m[s := WriteGroup(m[s], vals)] else m
  }

  /**
   * The slots once the blocks of the selectors in done have run, each selector s taking the
   * texts texts(s), and the other blocks have not.
   */
  function PartlyWritten(orig: map<Selector, seq<string>>, done: set<Selector>,
                         texts: Selector -> seq<string>): (r: map<Selector, seq<string>>)
    ensures r.Keys == orig.Keys
  {
    map s | s in orig :: if s in done then WriteGroup(orig[s], texts(s)) else orig[s]
  }

  /** m holds the slots as they are once the blocks of the selectors in done have run. */
  predicate SlotsAfter(m: map<Selector, seq<string>>, orig: map<Selector, seq<string>>,
                       done: set<Selector>, texts: Selector -> seq<string>)
  {
    m == PartlyWritten(orig, done, texts)
  }

  /** Before any block has run nothing is written. */
  lemma NothingWrittenYet(orig: map<Selector, seq<string>>, texts: Selector -> seq<string>)
    ensures SlotsAfter(orig, orig, {}, texts)
  {
  }

  /**
   * Running the block of s adds the write of s and changes nothing else; running it a
   * second time would change nothing.
   */
  lemma PartlyWrittenStep(orig: map<Selector, seq<string>>, done: set<Selector>, s: Selector,
                          texts: Selector -> seq<string>)
    ensures PartlyWritten(orig, done + {s}, texts)
            == WriteSlot(PartlyWritten(orig, done, texts), s, texts(s))
  {
    var before := PartlyWritten(orig, done, texts);
    var after := PartlyWritten(orig, done + {s}, texts);
    if s in orig {
      if s in done {
        WriteGroupTwice(orig[s], texts(s), texts(s));
      }
      assert after == before[s := WriteGroup(before[s], texts(s))];
    }
  }

  /** The blocks of `updatePageLanguage`, run one after the other, cover every selector. */
  lemma EveryBlockRuns()
    ensures forall s: Selector :: s in {} + {ToggleButton} + {LogoSubtitle} + {PosterImage}
                                    + {DownloadHeading} + {DownloadSubheading} + {DownloadSteps}
                                    + {DownloadButtons} + {DownloadPageHeading}
                                    + {WindowsVersionLabel} + {WindowsCompatibleLabel}
                                    + {MacVersionLabel} + {MacCompatibleLabel} + {WindowsButton}
                                    + {MacButton} + {InstallationHeading} + {StepTitles}
                                    + {StepDescriptions} + {AboutSubheading} + {AboutItems}
                                    + {FooterText} + {TutorialHeading} + {LauncherErrorHeading}
                                    + {ModpackVideoHeading} + {SkinVideoHeading}
                                    + {VideoDescriptions} + {VideoInstructionTexts}
                                    + {InstructionItems}
  {
    forall s: Selector
      ensures s in {} + {ToggleButton} + {LogoSubtitle} + {PosterImage} + {DownloadHeading} + {DownloadSubheading} + {DownloadSteps} + {DownloadButtons} + {DownloadPageHeading} + {WindowsVersionLabel} + {WindowsCompatibleLabel} + {MacVersionLabel} + {MacCompatibleLabel} + {WindowsButton} + {MacButton} + {InstallationHeading} + {StepTitles} + {StepDescriptions} + {AboutSubheading} + {AboutItems} + {FooterText} + {TutorialHeading} + {LauncherErrorHeading} + {ModpackVideoHeading} + {SkinVideoHeading} + {VideoDescriptions} + {VideoInstructionTexts} + {InstructionItems}
    {
      match s
      case ToggleButton => {}
      case LogoSubtitle => {}
      case PosterImage => {}
      case DownloadHeading => {}
      case DownloadSubheading => {}
      case DownloadSteps => {}
      case DownloadButtons => {}
      case DownloadPageHeading => {}
      case WindowsVersionLabel => {}
      case WindowsCompatibleLabel => {}
      case MacVersionLabel => {}
      case MacCompatibleLabel => {}
      case WindowsButton => {}
      case MacButton => {}
      case InstallationHeading => {}
      case StepTitles => {}
      case StepDescriptions => {}
      case AboutSubheading => {}
      case AboutItems => {}
      case FooterText => {}
      case TutorialHeading => {}
      case LauncherErrorHeading => {}
      case ModpackVideoHeading => {}
      case SkinVideoHeading => {}
      case VideoDescriptions => {}
      case VideoInstructionTexts => {}
      case InstructionItems => {}
    }
  }

  /** Once the blocks of every selector have run in locale l, the slots are those the rendering gives. */
  lemma AllBlocksWritten(orig: map<Selector, seq<string>>, done: set<Selector>, l: Lang)
    requires forall s: Selector :: s in done
    ensures PartlyWritten(orig, done, s => Bindings(s, l)) == RenderSlots(orig, l)
  {
  }

  class Page {
    /** `currentLanguage`. */
    var currentLanguage: Lang
    /** `document.documentElement.lang`. */
    var htmlLang: string
    /** `document.title`. */
    var title: string
    /** The `.nav-link` elements in document order. */
    var navLinks: seq<NavLink>
    /** The texts of the elements each selector matches, in document order. */
    var slots: map<Selector, seq<string>>
    /** The click listener is attached to the toggle button. */
    var listening: bool
    /** `window.location.pathname`. */
    const path: string

    /** The page's content as a PageRender document. */
    function Doc(): Dom
      reads this
    {
      Dom(htmlLang, title, navLinks, slots)
    }

    /** A click listener is attached only to a toggle button that is on the page. */
    predicate Valid()
      reads this
    {
      listening ==> ButtonPresent(Doc())
    }

    /** The page as loaded at path, before any script ran: `currentLanguage` is 'zh'. */
    constructor(d: Dom, path: string)
      ensures Doc() == d && this.path == path
      ensures currentLanguage == InitialLang && !listening
      ensures Valid()
    {
      currentLanguage := InitialLang;
      htmlLang := d.htmlLang;
      title := d.title;
      navLinks := d.navLinks;
      slots := d.slots;
      listening := false;
      this.path := path;
    }

    /** `updatePageLanguage`: rewrite the whole page in `currentLanguage`. */
    method UpdatePageLanguage()
      modifies this
      ensures Doc() == Render(old(Doc()), currentLanguage, path)
      ensures currentLanguage == old(currentLanguage) && listening == old(listening)
    {
      var l := currentLanguage;
      htmlLang := Text(l, HtmlLang);
      if Includes(path, "download.html") {
        title := Text(l, DownloadTitle);
      } else {
        title := Text(l, Title);
      }
      RelabelNavLinks();
      WriteAllBlocks();
    }

    /** The selector blocks of `updatePageLanguage`, in their order. */
    method WriteAllBlocks()
      modifies this
      ensures slots == RenderSlots(old(slots), currentLanguage)
      ensures htmlLang == old(htmlLang) && title == old(title) && navLinks == old(navLinks)
      ensures currentLanguage == old(currentLanguage) && listening == old(listening)
    {
      var l := currentLanguage;
      ghost var orig := slots;
      ghost var texts := (s: Selector) => Bindings(s, l);
      ghost var done: set<Selector> := {};
      NothingWrittenYet(orig, texts);
      done := WriteHomeBlocks(orig, done, texts);
      done := WriteDownloadPageBlocks(orig, done, texts);
      done := WriteNotesAndFooterBlocks(orig, done, texts);
      done := WriteTutorialBlocks(orig, done, texts);
      EveryBlockRuns();
      AllBlocksWritten(orig, done, l);
    }

    /** The blocks of the toggle button, the logo, the poster and the home page's download section. */
    method WriteHomeBlocks(ghost orig: map<Selector, seq<string>>, ghost done: set<Selector>,
                  ghost texts: Selector -> seq<string>) returns (ghost done': set<Selector>)
      requires forall s :: texts(s) == Bindings(s, currentLanguage)
      requires SlotsAfter(slots, orig, done, texts)
      modifies this
      ensures done' == done + {ToggleButton} + {LogoSubtitle} + {PosterImage} + {DownloadHeading}
                        + {DownloadSubheading} + {DownloadSteps} + {DownloadButtons}
      ensures SlotsAfter(slots, orig, done', texts)
      ensures htmlLang == old(htmlLang) && title == old(title) && navLinks == old(navLinks)
      ensures currentLanguage == old(currentLanguage) && listening == old(listening)
    {
      done' := done;
      done' := WriteSelector(ToggleButton, Bindings(ToggleButton, currentLanguage), orig, done', texts);
      done' := WriteSelector(LogoSubtitle, Bindings(LogoSubtitle, currentLanguage), orig, done', texts);
      done' := WriteSelector(PosterImage, Bindings(PosterImage, currentLanguage), orig, done', texts);
      done' := WriteSelector(DownloadHeading, Bindings(DownloadHeading, currentLanguage), orig, done', texts);
      done' := WriteSelector(DownloadSubheading, Bindings(DownloadSubheading, currentLanguage), orig, done', texts);
      done' := WriteSelector(DownloadSteps, Bindings(DownloadSteps, currentLanguage), orig, done', texts);
      done' := WriteSelector(DownloadButtons, Bindings(DownloadButtons, currentLanguage), orig, done', texts);
    }

    /** The blocks of the download page. */
    method WriteDownloadPageBlocks(ghost orig: map<Selector, seq<string>>, ghost done: set<Selector>,
                  ghost texts: Selector -> seq<string>) returns (ghost done': set<Selector>)
      requires forall s :: texts(s) == Bindings(s, currentLanguage)
      requires SlotsAfter(slots, orig, done, texts)
      modifies this
      ensures done' == done + {DownloadPageHeading} + {WindowsVersionLabel}
                        + {WindowsCompatibleLabel} + {MacVersionLabel} + {MacCompatibleLabel}
                        + {WindowsButton} + {MacButton} + {InstallationHeading} + {StepTitles}
                        + {StepDescriptions}
      ensures SlotsAfter(slots, orig, done', texts)
      ensures htmlLang == old(htmlLang) && title == old(title) && navLinks == old(navLinks)
      ensures currentLanguage == old(currentLanguage) && listening == old(listening)
    {
      done' := done;
      done' := WriteSelector(DownloadPageHeading, Bindings(DownloadPageHeading, currentLanguage), orig, done', texts);
      done' := WriteSelector(WindowsVersionLabel, Bindings(WindowsVersionLabel, currentLanguage), orig, done', texts);
      done' := WriteSelector(WindowsCompatibleLabel, Bindings(WindowsCompatibleLabel, currentLanguage), orig, done', texts);
      done' := WriteSelector(MacVersionLabel, Bindings(MacVersionLabel, currentLanguage), orig, done', texts);
      done' := WriteSelector(MacCompatibleLabel, Bindings(MacCompatibleLabel, currentLanguage), orig, done', texts);
      done' := WriteSelector(WindowsButton, Bindings(WindowsButton, currentLanguage), orig, done', texts);
      done' := WriteSelector(MacButton, Bindings(MacButton, currentLanguage), orig, done', texts);
      done' := WriteSelector(InstallationHeading, Bindings(InstallationHeading, currentLanguage), orig, done', texts);
      done' := WriteSelector(StepTitles, Bindings(StepTitles, currentLanguage), orig, done', texts);
      done' := WriteSelector(StepDescriptions, Bindings(StepDescriptions, currentLanguage), orig, done', texts);
    }

    /** The blocks of the important notes and the footer. */
    method WriteNotesAndFooterBlocks(ghost orig: map<Selector, seq<string>>, ghost done: set<Selector>,
                  ghost texts: Selector -> seq<string>) returns (ghost done': set<Selector>)
      requires forall s :: texts(s) == Bindings(s, currentLanguage)
      requires SlotsAfter(slots, orig, done, texts)
      modifies this
      ensures done' == done + {AboutSubheading} + {AboutItems} + {FooterText}
      ensures SlotsAfter(slots, orig, done', texts)
      ensures htmlLang == old(htmlLang) && title == old(title) && navLinks == old(navLinks)
      ensures currentLanguage == old(currentLanguage) && listening == old(listening)
    {
      done' := done;
      done' := WriteSelector(AboutSubheading, Bindings(AboutSubheading, currentLanguage), orig, done', texts);
      done' := WriteSelector(AboutItems, Bindings(AboutItems, currentLanguage), orig, done', texts);
      done' := WriteSelector(FooterText, Bindings(FooterText, currentLanguage), orig, done', texts);
    }

    /** The blocks of the tutorial page. */
    method WriteTutorialBlocks(ghost orig: map<Selector, seq<string>>, ghost done: set<Selector>,
                  ghost texts: Selector -> seq<string>) returns (ghost done': set<Selector>)
      requires forall s :: texts(s) == Bindings(s, currentLanguage)
      requires SlotsAfter(slots, orig, done, texts)
      modifies this
      ensures done' == done + {TutorialHeading} + {LauncherErrorHeading} + {ModpackVideoHeading}
                        + {SkinVideoHeading} + {VideoDescriptions} + {VideoInstructionTexts}
                        + {InstructionItems}
      ensures SlotsAfter(slots, orig, done', texts)
      ensures htmlLang == old(htmlLang) && title == old(title) && navLinks == old(navLinks)
      ensures currentLanguage == old(currentLanguage) && listening == old(listening)
    {
      done' := done;
      done' := WriteSelector(TutorialHeading, Bindings(TutorialHeading, currentLanguage), orig, done', texts);
      done' := WriteSelector(LauncherErrorHeading, Bindings(LauncherErrorHeading, currentLanguage), orig, done', texts);
      done' := WriteSelector(ModpackVideoHeading, Bindings(ModpackVideoHeading, currentLanguage), orig, done', texts);
      done' := WriteSelector(SkinVideoHeading, Bindings(SkinVideoHeading, currentLanguage), orig, done', texts);
      done' := WriteSelector(VideoDescriptions, Bindings(VideoDescriptions, currentLanguage), orig, done', texts);
      done' := WriteSelector(VideoInstructionTexts, Bindings(VideoInstructionTexts, currentLanguage), orig, done', texts);
      done' := WriteSelector(InstructionItems, Bindings(InstructionItems, currentLanguage), orig, done', texts);
    }

    /** The `forEach` over the `.nav-link` elements with its priority chain. */
    method RelabelNavLinks()
      modifies this
      ensures navLinks == RelabelAll(old(navLinks), currentLanguage)
      ensures Doc() == old(Doc()).(navLinks := navLinks)
      ensures currentLanguage == old(currentLanguage) && listening == old(listening)
    {
      var l := currentLanguage;
      ghost var orig := navLinks;
      for i := 0 to |navLinks|
        invariant |navLinks| == |orig|
        invariant forall j :: 0 <= j < i ==> navLinks[j] == Relabel(orig[j], l)
        invariant forall j :: i <= j < |orig| ==> navLinks[j] == orig[j]
        invariant Doc() == old(Doc()).(navLinks := navLinks)
        invariant currentLanguage == l && listening == old(listening)
      {
        var link := navLinks[i];
        var href := link.href;
        if href == "#download" || Includes(link.text, "Download") || Includes(link.text, "下载") {
          navLinks := navLinks[i := link.(text := Text(l, Download))];
        } else if href == "#about" || Includes(link.text, "About") || Includes(link.text, "关于") {
          navLinks := navLinks[i := link.(text := Text(l, About))];
        } else if Includes(link.text, "Back to Home") || Includes(link.text, "返回主页") {
          navLinks := navLinks[i := link.(text := Text(l, BackToHome))];
        }
      }
    }

    /**
     * One selector's block of `updatePageLanguage`: look the elements up and, when there are
     * enough of them, write the locale's texts into the first ones, one element at a time.
     */
    method WriteSelector(s: Selector, vals: seq<string>, ghost orig: map<Selector, seq<string>>,
                         ghost done: set<Selector>, ghost texts: Selector -> seq<string>)
      returns (ghost done': set<Selector>)
      requires vals == texts(s)
      requires SlotsAfter(slots, orig, done, texts)
      modifies this
      ensures done' == done + {s}
      ensures SlotsAfter(slots, orig, done', texts)
      ensures htmlLang == old(htmlLang) && title == old(title) && navLinks == old(navLinks)
      ensures currentLanguage == old(currentLanguage) && listening == old(listening)
    {
      PartlyWrittenStep(orig, done, s, texts);
      if s in slots && |slots[s]| >= |vals| {
        var els := slots[s];
        for i := 0 to |vals|
          invariant |els| == |slots[s]|
          invariant forall j :: 0 <= j < i ==> els[j] == vals[j]
          invariant forall j :: i <= j < |els| ==> els[j] == slots[s][j]
        {
          els := els[i := vals[i]];
        }
        assert els == vals + slots[s][|vals|..];
        slots := slots[s := els];
      }
      done' := done + {s};
    }

    /** The toggle button's text becomes the current locale's toggle label. */
    method SetToggleLabel()
      requires ButtonPresent(Doc())
      modifies this
      ensures slots == old(slots)[ToggleButton := WriteGroup(old(slots)[ToggleButton],
                                                              [Text(currentLanguage, LanguageToggle)])]
      ensures Doc() == old(Doc()).(slots := slots)
      ensures currentLanguage == old(currentLanguage) && listening == old(listening)
    {
      var buttons := slots[ToggleButton];
      var caption := Text(currentLanguage, LanguageToggle);
      assert buttons[0 := caption] == WriteGroup(buttons, [caption]);
      slots := slots[ToggleButton := buttons[0 := caption]];
    }

    /**
     * `initLanguageToggle` with the listener attached inside the null check: the page is
     * rendered in Chinese, the button relabelled and the listener attached when the button
     * exists.
     */
    method InitLanguageToggle()
      requires Valid()
      modifies this
      ensures currentLanguage == Zh
      ensures Doc() == Render(old(Doc()), Zh, path)
      ensures listening <==> ButtonPresent(old(Doc()))
      ensures Valid()
    {
      var toggleBtn := ToggleButton in slots && |slots[ToggleButton]| >= 1;
      ghost var before := Doc();
      currentLanguage := Zh;
      UpdatePageLanguage();
      RenderKeepsButton(before, Zh, path);
      if toggleBtn {
        ToggleLabelRewriteIdempotent(before, Zh, path);
        SetToggleLabel();
      }
      listening := toggleBtn;
    }

    /** The click handler: flip the locale, rewrite the page, relabel the button. */
    method ClickLanguageToggle()
      requires Valid() && listening
      modifies this
      ensures currentLanguage == Toggle(old(currentLanguage))
      ensures Doc() == Render(old(Doc()), currentLanguage, path)
      ensures listening && Valid()
    {
      ghost var before := Doc();
      currentLanguage := if currentLanguage == En then Zh else En;
      UpdatePageLanguage();
      RenderKeepsButton(before, currentLanguage, path);
      ToggleLabelRewriteIdempotent(before, currentLanguage, path);
      SetToggleLabel();
    }
  }
}
