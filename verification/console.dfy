/** The plain-text banners the terminal and status tools frame their output with. */
module Console {

  /** A rule of 63 box-drawing characters. */
  const Rule := "═══════════════════════════════════════════════════════════════"

  /** A title between two rules, followed by a blank line. */
  function Heading(title: string): string {
    Rule + "\n" + title + "\n" + Rule + "\n\n"
  }
}
