/**
  Model of src/ThemeToggle.jsx: which theme a click switches to and which
  icon the button shows. The three writes the click performs are the
  `Toggle` method of `App.Session`, which owns the cells they write.

  A theme is a string: the component is typed for "light" and "dark", but
  whatever string the page was started with reaches it unchanged.
*/
module ThemeToggle {

  const Dark: string := "dark"
  const Light: string := "light"

  /** The theme a click switches to: "light" from "dark", "dark" from anything else. */
  function NextTheme(theme: string): (next: string)
    ensures next == Light <==> theme == Dark
    ensures next == Dark <==> theme != Dark
    ensures next != theme
  {
    if theme == Dark then Light else Dark
  }

  datatype Icon = Sun | Moon

  /** The icon on the button: the sun while the theme is dark, the moon otherwise. */
  function IconFor(theme: string): (icon: Icon)
    ensures icon == Sun <==> theme == Dark
    ensures icon == Moon <==> theme != Dark
  {
    if theme == Dark then Sun else Moon
  }

  /** Clicking always flips the icon. */
  lemma IconFlips(theme: string)
    ensures IconFor(NextTheme(theme)) != IconFor(theme)
  {
  }

  /** Two clicks from "light" or "dark" come back to where they started. */
  lemma ToggleTwice(theme: string)
    requires theme == Light || theme == Dark
    ensures NextTheme(NextTheme(theme)) == theme
  {
  }

  /** Two clicks from any other stored string end on "light", not on that string. */
  lemma ToggleTwiceOther(theme: string)
    requires theme != Light && theme != Dark
    ensures NextTheme(NextTheme(theme)) == Light != theme
  {
  }

  /** The theme after n clicks from `start`: the start itself, or "light" or "dark" once clicked. */
  function ThemeAfter(start: string, n: nat): (theme: string)
    ensures n == 0 ==> theme == start
    ensures n >= 1 ==> theme == Light || theme == Dark
  {
    if n == 0 then start else NextTheme(ThemeAfter(start, n - 1))
  }

  /** n clicks from "light" or "dark" land on the start when n is even and on the other theme when n is odd. */
  lemma {:induction false} ToggleParity(start: string, n: nat)
    requires start == Light || start == Dark
    ensures ThemeAfter(start, n) == if n % 2 == 0 then start else NextTheme(start)
  {
    if n > 0 {
      ToggleParity(start, n - 1);
    }
  }
}
