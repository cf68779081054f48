/**
 * What `updatePageLanguage` makes of the page: the document language, the title,
 * the navigation links and the text slots bound by selector, as pure functions of
 * the page before the call, the active locale and the page path.
 */
module PageRender {
  import opened Strings
  import opened LocaleTexts

  /** A `.nav-link` element: its `href` attribute (a missing one reads as "") and its text. */
  datatype NavLink = NavLink(href: string, text: string)

  /** Which navigation label a link carries, as the rewrite decides it. */
  datatype NavKind = DownloadNav | AboutNav | HomeNav | OtherNav

  /**
   * The priority chain of the navigation rewrite: a download link (by anchor or by either
   * locale's label), else an about link, else a back-to-home link (by label only).
   */
  function Classify(link: NavLink): (k: NavKind)
    ensures link.href == "#download" ==> k == DownloadNav
    ensures link.href == "#about" ==> k == DownloadNav || k == AboutNav
    ensures k == HomeNav ==> Includes(link.text, "Back to Home") || Includes(link.text, "返回主页")
    ensures k == OtherNav ==> link.href != "#download" && link.href != "#about"
                              && !Includes(link.text, "Back to Home")
                              && !Includes(link.text, "返回主页")
  {
    if link.href == "#download" || Includes(link.text, "Download") || Includes(link.text, "下载") then
      DownloadNav
    else if link.href == "#about" || Includes(link.text, "About") || Includes(link.text, "关于") then
      AboutNav
    else if Includes(link.text, "Back to Home") || Includes(link.text, "返回主页") then
      HomeNav
    else
      OtherNav
  }

  /** The download label in both locales. */
  lemma DownloadLabels()
    ensures Text(En, Download) == "Download" && Text(Zh, Download) == "下载"
  {
  }

  /** The about label in both locales. */
  lemma AboutLabels()
    ensures Text(En, About) == "About" && Text(Zh, About) == "关于"
  {
  }

  /** The back-to-home label in both locales. */
  lemma HomeLabels()
    ensures Text(En, BackToHome) == "Back to Home" && Text(Zh, BackToHome) == "返回主页"
  {
  }

  /** A download label, in either locale, is recognised as a download link. */
  lemma DownloadLabelRecognised(href: string, l: Lang)
    ensures Classify(NavLink(href, Text(l, Download))) == DownloadNav
  {
    DownloadLabels();
    IncludesItself(Text(l, Download));
  }

  /** A link that the download test does not catch and that carries an about label is an about link. */
  lemma AboutRecognised(link: NavLink)
    requires link.href != "#download"
    requires !Includes(link.text, "Download") && !Includes(link.text, "下载")
    requires Includes(link.text, "About") || Includes(link.text, "关于")
    ensures Classify(link) == AboutNav
  {
  }

  /** The about label of locale l is recognised as an about link unless anchored at `#download`. */
  lemma AboutLabelRecognised(href: string, l: Lang)
    requires href != "#download"
    ensures Classify(NavLink(href, Text(l, About))) == AboutNav
  {
    AboutLabels();
    if l == En {
      var text := "About";
      IncludesItself(text);
      MissingCharExcludes(text, "Download", 'D');
      MissingCharExcludes(text, "下载", '下');
      AboutRecognised(NavLink(href, text));
    } else {
      var text := "关于";
      IncludesItself(text);
      MissingCharExcludes(text, "Download", 'D');
      MissingCharExcludes(text, "下载", '下');
      AboutRecognised(NavLink(href, text));
    }
  }

  /** A link that no earlier test of the chain catches and that carries a back-to-home label is a back-to-home link. */
  lemma HomeRecognised(link: NavLink)
    requires link.href != "#download" && link.href != "#about"
    requires !Includes(link.text, "Download") && !Includes(link.text, "下载")
    requires !Includes(link.text, "About") && !Includes(link.text, "关于")
    requires Includes(link.text, "Back to Home") || Includes(link.text, "返回主页")
    ensures Classify(link) == HomeNav
  {
  }

  /**
   * A text lacking the characters 'D', '下', 'A' and '关' contains none of the download and
   * about markers, so a back-to-home marker in it decides the link.
   */
  lemma HomeByMissingChars(href: string, text: string)
    requires href != "#download" && href != "#about"
    requires 'D' !in text && '下' !in text && 'A' !in text && '关' !in text
    requires Includes(text, "Back to Home") || Includes(text, "返回主页")
    ensures Classify(NavLink(href, text)) == HomeNav
  {
    MissingCharExcludes(text, "Download", 'D');
    MissingCharExcludes(text, "下载", '下');
    MissingCharExcludes(text, "About", 'A');
    MissingCharExcludes(text, "关于", '关');
    HomeRecognised(NavLink(href, text));
  }

  /** Either back-to-home label is recognised unless anchored at `#download` or `#about`. */
  lemma HomeLiteralRecognised(href: string, text: string)
    requires href != "#download" && href != "#about"
    requires text == "Back to Home" || text == "返回主页"
    ensures Classify(NavLink(href, text)) == HomeNav
  {
    if text == "Back to Home" {
      IncludesItself("Back to Home");
      HomeByMissingChars(href, "Back to Home");
    } else {
      IncludesItself("返回主页");
      HomeByMissingChars(href, "返回主页");
    }
  }

  /** The back-to-home label of locale l is recognised unless anchored at `#download` or `#about`. */
  lemma HomeLabelRecognised(href: string, l: Lang)
    requires href != "#download" && href != "#about"
    ensures Classify(NavLink(href, Text(l, BackToHome))) == HomeNav
  {
    HomeLabels();
    HomeLiteralRecognised(href, Text(l, BackToHome));
  }

  /**
   * One link after the rewrite in locale l: a link the chain recognises gets the label of
   * its kind, any other link is left as it is. The rewritten link is recognised as the same
   * kind again, so a later rewrite, in either locale, still finds it.
   */
  function Relabel(link: NavLink, l: Lang): (r: NavLink)
    ensures r.href == link.href
    ensures Classify(r) == Classify(link)
    ensures Classify(link) == DownloadNav ==> r.text == Text(l, Download)
    ensures Classify(link) == AboutNav ==> r.text == Text(l, About)
    ensures Classify(link) == HomeNav ==> r.text == Text(l, BackToHome)
    ensures Classify(link) == OtherNav ==> r == link
  {
    match Classify(link)
    case DownloadNav =>
      DownloadLabelRecognised(link.href, l);
      link.(text := Text(l, Download))
    case AboutNav =>
      AboutLabelRecognised(link.href, l);
      link.(text := Text(l, About))
    case HomeNav =>
      HomeLabelRecognised(link.href, l);
      link.(text := Text(l, BackToHome))
    case OtherNav =>
      link
  }

  /** The elements the rewrite addresses, one constructor per selector. */
  datatype Selector =
    | ToggleButton           // #language-toggle
    | LogoSubtitle           // .subtitle
    | PosterImage            // .poster (its alt attribute)
    | DownloadHeading        // #download h2
    | DownloadSubheading     // #download h3
    | DownloadSteps          // #download li
    | DownloadButtons        // .download-btn
    | DownloadPageHeading    // .download-page-title
    | WindowsVersionLabel    // .windows-version
    | WindowsCompatibleLabel // .windows-compatible
    | MacVersionLabel        // .mac-version
    | MacCompatibleLabel     // .mac-compatible
    | WindowsButton          // .download-windows-btn
    | MacButton              // .download-mac-btn
    | InstallationHeading    // .installation-instructions
    | StepTitles             // .step-title
    | StepDescriptions       // .step-desc
    | AboutSubheading        // #about h3
    | AboutItems             // #about li
    | FooterText             // .footer p
    | TutorialHeading        // .tutorial-main-title
    | LauncherErrorHeading   // .launcher-error-title
    | ModpackVideoHeading    // .modpack-video-title
    | SkinVideoHeading       // .skin-video-title
    | VideoDescriptions      // .video-description
    | VideoInstructionTexts  // .video-instructions
    | InstructionItems       // .instruction-item

  /**
   * How many matching elements a selector needs before anything is written: one for the
   * single-element lookups, the guarded `length >=` count for the positional groups.
   */
  function Threshold(s: Selector): (n: nat)
    ensures 1 <= n <= 8
  {
    match s
    case DownloadSteps => 2
    case DownloadButtons => 3
    case StepTitles => 4
    case StepDescriptions => 4
    case AboutItems => 5
    case VideoDescriptions => 2
    case VideoInstructionTexts => 3
    case InstructionItems => 8
    case _ => 1
  }

  /** The table properties written, in element order, into the elements a selector matches. */
  function BoundKeys(s: Selector): (ks: seq<Key>)
    ensures |ks| == Threshold(s)
  {
    match s
    case ToggleButton => [LanguageToggle]
    case LogoSubtitle => [Subtitle]
    case PosterImage => [PosterAlt]
    case DownloadHeading => [DownloadSectionTitle]
    case DownloadSubheading => [StepsTitle]
    case DownloadSteps => [Step1, Step2]
    case DownloadButtons => [DownloadBtn1, DownloadBtn2, DownloadBtn3]
    case DownloadPageHeading => [DownloadPageTitle]
    case WindowsVersionLabel => [WindowsVersion]
    case WindowsCompatibleLabel => [WindowsCompatible]
    case MacVersionLabel => [MacVersion]
    case MacCompatibleLabel => [MacCompatible]
    case WindowsButton => [DownloadForWindows]
    case MacButton => [DownloadForMac]
    case InstallationHeading => [InstallationInstructions]
    case StepTitles => [Step1Title, Step2Title, Step3Title, Step4Title]
    case StepDescriptions => [Step1Desc, Step2Desc, Step3Desc, Step4Desc]
    case AboutSubheading => [WarningTitle]
    case AboutItems => [Warning1, Warning2, Warning3, Warning4, Warning5]
    case FooterText => [Footer]
    case TutorialHeading => [TutorialTitle]
    case LauncherErrorHeading => [LauncherErrorTitle]
    case ModpackVideoHeading => [ModpackVideoTitle]
    case SkinVideoHeading => [SkinVideoTitle]
    case VideoDescriptions => [VideoDescription, VideoDescription]
    case VideoInstructionTexts => [VideoInstructions, VideoInstructions, VideoInstructions]
    case InstructionItems =>
      [ModpackInstruction1, ModpackInstruction2, ModpackInstruction3, ModpackInstruction4,
       SkinInstruction1, SkinInstruction2, SkinInstruction3, SkinInstruction4]
  }

  /** The texts written into the elements a selector matches, in locale l. */
  function Bindings(s: Selector, l: Lang): (vals: seq<string>)
    ensures |vals| == Threshold(s)
  {
    var ks := BoundKeys(s);
    seq(|ks|, i requires 0 <= i < |ks| => Text(l, ks[i]))
  }

  /**
   * The guarded write of a selector's texts into its matches: all or nothing. With fewer
   * matches than texts nothing is written; otherwise exactly the first |vals| matches take
   * the texts and the later matches keep theirs.
   */
  function WriteGroup(els: seq<string>, vals: seq<string>): (r: seq<string>)
    ensures |r| == |els|
    ensures |els| < |vals| ==> r == els
    ensures |els| >= |vals| ==> r[..|vals|] == vals && r[|vals|..] == els[|vals|..]
  {
    if |els| >= |vals| then vals + els[|vals|..] else els
  }

  /** A second guarded write of as many texts overrides the first entirely. */
  lemma {:induction false} WriteGroupTwice(els: seq<string>, v1: seq<string>, v2: seq<string>)
    requires |v1| == |v2|
    ensures WriteGroup(WriteGroup(els, v1), v2) == WriteGroup(els, v2)
  {
    if |els| >= |v1| {
      var once := WriteGroup(els, v1);
      assert once[|v2|..] == els[|v2|..];
    }
  }

  /**
   * The page as the rewrite sees it: the `lang` attribute, the title, the navigation links
   * in document order and, for each selector, the texts of the elements it matches in
   * document order (a selector absent from the map matches nothing).
   */
  datatype Dom = Dom(htmlLang: string, title: string, navLinks: seq<NavLink>,
                     slots: map<Selector, seq<string>>)

  /** The title: the download page's own title when the path names `download.html`. */
  function PageTitle(l: Lang, path: string): (r: string)
    ensures Includes(path, "download.html") ==> r == Text(l, DownloadTitle)
    ensures !Includes(path, "download.html") ==> r == Text(l, Title)
  {
    if Includes(path, "download.html") then Text(l, DownloadTitle) else Text(l, Title)
  }

  /** The rewrite of the navigation links, link by link. */
  function RelabelAll(links: seq<NavLink>, l: Lang): (r: seq<NavLink>)
    ensures |r| == |links|
  {
    seq(|links|, i requires 0 <= i < |links| => Relabel(links[i], l))
  }

  /** The rewrite of the selector-bound slots, each by its guarded write. */
  function RenderSlots(slots: map<Selector, seq<string>>, l: Lang): (r: map<Selector, seq<string>>)
    ensures r.Keys == slots.Keys
    ensures forall s :: s in slots ==> |r[s]| == |slots[s]|
  {
    map s | s in slots :: WriteGroup(slots[s], Bindings(s, l))
  }

  /** The whole page after `updatePageLanguage` in locale l on path. */
  function Render(d: Dom, l: Lang, path: string): (r: Dom)
    ensures r.htmlLang == Text(l, HtmlLang) && r.title == PageTitle(l, path)
    ensures |r.navLinks| == |d.navLinks|
    ensures r.slots.Keys == d.slots.Keys
  {
    Dom(Text(l, HtmlLang), PageTitle(l, path), RelabelAll(d.navLinks, l), RenderSlots(d.slots, l))
  }

  /**
   * Rewriting depends only on the last locale: whatever locale the page was rendered in
   * before, rendering it in l2 gives what rendering the original page in l2 gives.
   */
  lemma RenderLastWins(d: Dom, l1: Lang, l2: Lang, path: string)
    ensures Render(Render(d, l1, path), l2, path) == Render(d, l2, path)
  {
    var once := Render(d, l1, path);
    forall i | 0 <= i < |d.navLinks|
      ensures RelabelAll(once.navLinks, l2)[i] == RelabelAll(d.navLinks, l2)[i]
    {
      var link := d.navLinks[i];
      var r := Relabel(link, l1);
      assert Classify(r) == Classify(link);
    }
    forall s | s in d.slots
      ensures RenderSlots(once.slots, l2)[s] == RenderSlots(d.slots, l2)[s]
    {
      WriteGroupTwice(d.slots[s], Bindings(s, l1), Bindings(s, l2));
    }
  }

  /** Toggling twice re-renders exactly the text that was on the page before the toggles. */
  lemma ToggleTwiceRestoresPage(d: Dom, l: Lang, path: string)
    ensures Render(Render(Render(d, l, path), Toggle(l), path), Toggle(Toggle(l)), path)
            == Render(d, l, path)
  {
    RenderLastWins(d, l, Toggle(l), path);
    RenderLastWins(d, Toggle(l), l, path);
  }

  /**
   * A selector-bound slot after the rewrite: below its threshold untouched, otherwise
   * exactly its first Threshold(s) elements hold the locale's texts and the rest are kept.
   */
  lemma RenderedSlot(d: Dom, l: Lang, path: string, s: Selector)
    requires s in d.slots
    ensures var after := Render(d, l, path).slots[s];
            var n := Threshold(s);
            |after| == |d.slots[s]|
            && (|d.slots[s]| < n ==> after == d.slots[s])
            && (|d.slots[s]| >= n ==> (after[..n] == Bindings(s, l)
                                      && after[n..] == d.slots[s][n..]))
  {
  }

  /**
   * Switching a page rendered in Chinese to English: the `lang` attribute becomes "en" and
   * every link anchored at `#download` reads "Download".
   */
  lemma SwitchToEnglish(d: Dom, path: string)
    ensures var after := Render(Render(d, InitialLang, path), Toggle(InitialLang), path);
            after.htmlLang == "en"
            && forall i :: 0 <= i < |d.navLinks| && d.navLinks[i].href == "#download"
                           ==> after.navLinks[i].text == "Download"
  {
    DownloadLabels();
    RenderLastWins(d, InitialLang, En, path);
  }

  /** `getElementById('language-toggle')` finds the toggle button. */
  predicate ButtonPresent(d: Dom) {
    ToggleButton in d.slots && |d.slots[ToggleButton]| >= 1
  }

  /** The rewrite neither adds nor removes the toggle button. */
  lemma RenderKeepsButton(d: Dom, l: Lang, path: string)
    ensures ButtonPresent(Render(d, l, path)) <==> ButtonPresent(d)
  {
    if ToggleButton in d.slots {
      RenderedSlot(d, l, path, ToggleButton);
    }
  }

  /**
   * Writing the toggle label once more right after the rewrite, as initialisation and the
   * click handler do, changes nothing: the rewrite has already put it there.
   */
  lemma ToggleLabelRewriteIdempotent(d: Dom, l: Lang, path: string)
    requires ButtonPresent(d)
    ensures var after := Render(d, l, path).slots;
            WriteGroup(after[ToggleButton], [Text(l, LanguageToggle)]) == after[ToggleButton]
  {
    var vals := Bindings(ToggleButton, l);
    assert vals == [Text(l, LanguageToggle)];
    WriteGroupTwice(d.slots[ToggleButton], vals, vals);
  }
}
