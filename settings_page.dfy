/** The settings page: choosing a theme or a font stores the choice and writes the matching
    values into the document's CSS custom properties. The document root's style is the field
    `style`, a map from property name to value. */
module SettingsPage {

  datatype Palette = Palette(mainBackground: string, secondaryBackground: string, textColor: string)

  const OlivePalette: Palette := Palette("#AAB396", "#808E67", "#FFF8E8")

  /** The `changeTheme` switch; an unknown name gets the Olive palette. */
  function ThemePalette(theme: string): (p: Palette)
    ensures theme == "Light" ==> p == Palette("#FFF", "#9CFCCE", "#383B42")
    ensures theme == "Dark" ==> p == Palette("#26272C", "#555862", "#F8F2F4")
    ensures theme !in {"Light", "Dark"} ==> p == OlivePalette
  {
    match theme
    case "Light" => Palette("#FFF", "#9CFCCE", "#383B42")
    case "Dark" => Palette("#26272C", "#555862", "#F8F2F4")
    case "Olive" => OlivePalette
    case _ => OlivePalette
  }

  /** The three named themes have three different palettes. */
  lemma ThemesDistinct()
    ensures ThemePalette("Light") != ThemePalette("Dark")
    ensures ThemePalette("Light") != ThemePalette("Olive")
    ensures ThemePalette("Dark") != ThemePalette("Olive")
  {
  }

  /** The `changeFont` switch; an unknown name gets Poppins. */
  function FontValue(font: string): (v: string)
    ensures font == "Merriweather" ==> v == "\"Merriweather\", serif"
    ensures font != "Merriweather" ==> v == "\"Poppins\", sans-serif"
  {
    match font
    case "Poppins" => "\"Poppins\", sans-serif"
    case "Merriweather" => "\"Merriweather\", serif"
    case _ => "\"Poppins\", sans-serif"
  }

  /** The properties a theme writes: the primary colour is always the main background. */
  function ThemeProperties(p: Palette): (props: map<string, string>)
    ensures props.Keys == {"--backgroundColor", "--primaryColor", "--secondaryColor", "--textColor"}
    ensures props["--primaryColor"] == props["--backgroundColor"] == p.mainBackground
    ensures props["--secondaryColor"] == p.secondaryBackground && props["--textColor"] == p.textColor
  {
    map["--backgroundColor" := p.mainBackground, "--primaryColor" := p.mainBackground,
        "--secondaryColor" := p.secondaryBackground, "--textColor" := p.textColor]
  }

  /** The four `setProperty` calls in order write exactly the theme's properties. */
  lemma ThemeWrites(style: map<string, string>, p: Palette)
    ensures style["--backgroundColor" := p.mainBackground]["--primaryColor" := p.mainBackground]
                 ["--secondaryColor" := p.secondaryBackground]["--textColor" := p.textColor] ==
            style + ThemeProperties(p)
  {
    var a := style["--backgroundColor" := p.mainBackground]["--primaryColor" := p.mainBackground]
               ["--secondaryColor" := p.secondaryBackground]["--textColor" := p.textColor];
    var b := style + ThemeProperties(p);
    assert a.Keys == b.Keys;
    forall k | k in a.Keys
      ensures a[k] == b[k]
    {
    }
  }

  class Settings {
    var theme: string
    var font: string
    var style: map<string, string>

    /** The initial choices; nothing is written to the document until a choice is made. */
    constructor(style: map<string, string>)
      ensures theme == "Olive" && font == "Poppins" && this.style == style
    {
      theme, font := "Olive", "Poppins";
      this.style := style;
    }

    /** `handleThemeChange`: store the theme and write its four properties. */
    method HandleThemeChange(choice: string)
      modifies this`theme, this`style
      ensures theme == choice
      ensures style == old(style) + ThemeProperties(ThemePalette(choice))
    {
      theme := choice;
      var p := ThemePalette(choice);
      ThemeWrites(style, p);
      style := style["--backgroundColor" := p.mainBackground];
      style := style["--primaryColor" := p.mainBackground];
      style := style["--secondaryColor" := p.secondaryBackground];
      style := style["--textColor" := p.textColor];
    }

    /** `handleFontChange`: store the font and write `--fontStyle`. */
    method HandleFontChange(choice: string)
      modifies this`font, this`style
      ensures font == choice
      ensures style == old(style)["--fontStyle" := FontValue(choice)]
    {
      font := choice;
      style := style["--fontStyle" := FontValue(choice)];
    }
  }

  /** After any theme change the primary colour equals the background, and the stored theme
      is the applied one. */
  lemma PrimaryIsBackground(style: map<string, string>, choice: string)
    ensures var s := style + ThemeProperties(ThemePalette(choice));
      s["--primaryColor"] == s["--backgroundColor"] == ThemePalette(choice).mainBackground
  {
  }

  /** A theme change leaves the font, and a font change leaves the colours. */
  lemma ChangesIndependent(style: map<string, string>, theme: string, font: string)
    ensures var s := (style + ThemeProperties(ThemePalette(theme)))["--fontStyle" := FontValue(font)];
      s["--fontStyle"] == FontValue(font) && s["--textColor"] == ThemePalette(theme).textColor
    ensures var s := style["--fontStyle" := FontValue(font)] + ThemeProperties(ThemePalette(theme));
      s["--fontStyle"] == FontValue(font) && s["--textColor"] == ThemePalette(theme).textColor
  {
  }
}
