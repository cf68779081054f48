/**
 * The two-locale text table (`languageTexts`) and the locale toggle.
 *
 * Each locale's record is a total function over one type of property names, so the
 * English and the Chinese record define exactly the same names: a name missing from
 * either record would be a missing case, which Dafny rejects.
 */
module LocaleTexts {

  /** The two supported locales; `currentLanguage` always holds one of them. */
  datatype Lang = En | Zh

  /** `currentLanguage` starts as Chinese, and initialisation sets it to Chinese again. */
  const InitialLang: Lang := Zh

  /** The click handler's flip: 'en' becomes 'zh', and 'zh' becomes 'en'. */
  function Toggle(l: Lang): (r: Lang)
    ensures r != l
  {
    if l == En then Zh else En
  }

  /** Two toggles restore the locale. */
  lemma ToggleInvolution(l: Lang)
    ensures Toggle(Toggle(l)) == l
  {
  }

  /** The locale after n clicks on the toggle, starting from l. */
  function Toggled(l: Lang, n: nat): Lang
    decreases n
  {
    if n == 0 then l else Toggle(Toggled(l, n - 1))
  }

  /** After an even number of clicks the page is back in its starting locale, after an odd number in the other. */
  lemma {:induction false} ToggledParity(l: Lang, n: nat)
    ensures Toggled(l, n) == (if n % 2 == 0 then l else Toggle(l))
    decreases n
  {
    if n > 0 {
      ToggledParity(l, n - 1);
      ToggleInvolution(l);
    }
  }

  /** The property names of a locale record, grouped as the table groups them. */
  datatype Key =
    // page metadata
    HtmlLang | Title | DownloadTitle
    // navigation bar
    | Download | About | LanguageToggle | BackToHome
    // logo
    | Subtitle
    // poster
    | PosterAlt
    // download section of the home page
    | DownloadSectionTitle | StepsTitle | Step1 | Step2 | DownloadBtn1 | DownloadBtn2 | DownloadBtn3
    // download page
    | DownloadPageTitle | DownloadPageSubtitle | WindowsVersion | WindowsCompatible | MacVersion
    | MacCompatible | FileSize | Version | DownloadForWindows | DownloadForMac
    | InstallationInstructions | Step1Title | Step1Desc | Step2Title | Step2Desc | Step3Title
    | Step3Desc | Step4Title | Step4Desc
    // important notes
    | WarningTitle | Warning1 | Warning2 | Warning3 | Warning4 | Warning5
    // footer
    | Footer
    // tutorial page
    | TutorialTitle | LauncherErrorTitle | ModpackVideoTitle | SkinVideoTitle | VideoDescription
    | VideoInstructions | LauncherErrorInstruction1 | ModpackInstruction1 | ModpackInstruction2
    | ModpackInstruction3 | ModpackInstruction4 | SkinInstruction1 | SkinInstruction2
    | SkinInstruction3 | SkinInstruction4

  /** The text of a property in a locale. */
  function Text(l: Lang, k: Key): string {
    match l
    case En => EnText(k)
    case Zh => ZhText(k)
  }

  /** The English record. */
  function EnText(k: Key): string {
    match k
    // page metadata
    case HtmlLang => "en"
    case Title => "Minecraft Backroom Modpack"
    case DownloadTitle => "Download Launcher - Minecraft Backroom Modpack"
    // navigation bar
    case Download => "Download"
    case About => "About"
    case LanguageToggle => "中文"
    case BackToHome => "Back to Home"
    // logo
    case Subtitle => "Minecraft Modpack"
    // poster
    case PosterAlt => "Backroom Modpack Poster"
    // download section of the home page
    case DownloadSectionTitle => "Download & Watch"
    case StepsTitle => "Steps"
    case Step1 => "Download the Launcher"
    case Step2 => "Watch Tutorial Video"
    case DownloadBtn1 => "Download Launcher"
    case DownloadBtn2 => "Watch Tutorial"
    case DownloadBtn3 => "Skin Settings"
    // download page
    case DownloadPageTitle => "Download Launcher"
    case DownloadPageSubtitle => "Choose your operating system to download the Backroom Modpack launcher"
    case WindowsVersion => "Windows Version"
    case WindowsCompatible => "Compatible with Windows 10/11"
    case MacVersion => "Mac Version"
    case MacCompatible => "Compatible with macOS 10.14+"
    case FileSize => "File Size:"
    case Version => "Version:"
    case DownloadForWindows => "Download for Windows"
    case DownloadForMac => "Download for Mac"
    case InstallationInstructions => "Installation Instructions"
    case Step1Title => "Download the Launcher"
    case Step1Desc => "Click the download button for your operating system above"
    case Step2Title => "Run the Installer"
    case Step2Desc => "Locate the downloaded file and run the installer"
    case Step3Title => "Follow Setup Wizard"
    case Step3Desc => "Follow the on-screen instructions to complete installation"
    case Step4Title => "Launch and Play"
    case Step4Desc => "Start the launcher and begin your Backroom adventure!"
    // important notes
    case WarningTitle => "⚠️ Important Notes"
    case Warning1 => "This modpack contains horror elements, play with caution"
    case Warning2 => "Recommended for 4-6 players"
    case Warning3 => "Use in-game voice chat system"
    case Warning4 => "Stop playing immediately if you feel uncomfortable"
    case Warning5 => "For any issues, search on Bilibili"
    // footer
    case Footer => "© 2025 Backroom Modpack | Minecraft Modding Community"
    // tutorial page
    case TutorialTitle => "Tutorial Guide"
    case LauncherErrorTitle => "Launcher Error Solutions"
    case ModpackVideoTitle => "Modpack Installation Video"
    case SkinVideoTitle => "Skin Settings Video"
    case VideoDescription => "Click to play the tutorial video"
    case VideoInstructions => "Watch video to solve errors"
    case LauncherErrorInstruction1 => "Watch video to solve errors"
    case ModpackInstruction1 => "Download and install the launcher from the download page"
    case ModpackInstruction2 => "Launch the Backroom Modpack launcher"
    case ModpackInstruction3 => "Wait for mods and resources to download automatically"
    case ModpackInstruction4 => "Start your Backroom adventure!"
    case SkinInstruction1 => "Access the skin settings menu in the launcher"
    case SkinInstruction2 => "Customize your character's appearance"
    case SkinInstruction3 => "Apply custom skins and textures"
    case SkinInstruction4 => "Save your preferences for future sessions"
  }

  /** The Chinese record. */
  function ZhText(k: Key): string {
    match k
    // page metadata
    case HtmlLang => "zh-CN"
    case Title => "我的世界 Backroom 整合包"
    case DownloadTitle => "下载启动器 - 我的世界 Backroom 整合包"
    // navigation bar
    case Download => "下载"
    case About => "关于"
    case LanguageToggle => "English"
    case BackToHome => "返回主页"
    // logo
    case Subtitle => "我的世界整合包"
    // poster
    case PosterAlt => "Backroom 整合包海报"
    // download section of the home page
    case DownloadSectionTitle => "下载/观看"
    case StepsTitle => "步骤"
    case Step1 => "下载启动器"
    case Step2 => "观看教程视频"
    case DownloadBtn1 => "下载启动器"
    case DownloadBtn2 => "观看教程"
    case DownloadBtn3 => "皮肤设置"
    // download page
    case DownloadPageTitle => "下载启动器"
    case DownloadPageSubtitle => "选择您的操作系统以下载 Backroom 整合包启动器"
    case WindowsVersion => "Windows 版本"
    case WindowsCompatible => "兼容 Windows 10/11"
    case MacVersion => "Mac 版本"
    case MacCompatible => "兼容 macOS 10.14+"
    case FileSize => "文件大小:"
    case Version => "版本:"
    case DownloadForWindows => "下载 Windows 版"
    case DownloadForMac => "下载 Mac 版"
    case InstallationInstructions => "安装说明"
    case Step1Title => "下载启动器"
    case Step1Desc => "点击上方对应操作系统的下载按钮"
    case Step2Title => "运行安装程序"
    case Step2Desc => "找到下载的文件并运行安装程序"
    case Step3Title => "跟随安装向导"
    case Step3Desc => "按照屏幕上的指示完成安装"
    case Step4Title => "启动并游玩"
    case Step4Desc => "启动启动器，开始您的 Backroom 冒险！"
    // important notes
    case WarningTitle => "⚠️ 注意事项"
    case Warning1 => "本整合包包含恐怖元素，请谨慎游玩"
    case Warning2 => "推荐4-6人游玩"
    case Warning3 => "使用游戏内语音聊天系统"
    case Warning4 => "如感不适请立即停止游玩"
    case Warning5 => "遇到问题请去B站搜索"
    // footer
    case Footer => "© 2025 Backroom 整合包 | 我的世界模组社区"
    // tutorial page
    case TutorialTitle => "教程指南"
    case LauncherErrorTitle => "启动器报错解决方法"
    case ModpackVideoTitle => "整合包安装视频"
    case SkinVideoTitle => "皮肤设置视频"
    case VideoDescription => "点击即可播放教程视频"
    case VideoInstructions => "观看视频解决报错"
    case LauncherErrorInstruction1 => "观看视频解决报错"
    case ModpackInstruction1 => "从下载页面下载并安装启动器"
    case ModpackInstruction2 => "启动 Backroom 整合包启动器"
    case ModpackInstruction3 => "等待模组和资源自动下载"
    case ModpackInstruction4 => "开始您的 Backroom 冒险！"
    case SkinInstruction1 => "在启动器中访问皮肤设置菜单"
    case SkinInstruction2 => "自定义您的角色外观"
    case SkinInstruction3 => "应用自定义皮肤和纹理"
    case SkinInstruction4 => "保存您的偏好设置以备将来使用"
  }
}
