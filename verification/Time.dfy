/** Timestamps: text, microsecond instants, and truncation to whole seconds. */
module Time {
  import opened Basics
  import opened Text

  /** Parsing to microseconds and printing; calendar arithmetic itself is not modelled. */
  datatype Calendar = Calendar(parse: string -> Option<int>, format: int -> string) {
    /** What is printed for a text that parses: its instant truncated to seconds. */
    function Printed(text: string): string
      requires parse(text).Some?
    {
      format(TruncateToSeconds(parse(text).value))
    }

    /** The text parses, and what is printed for it parses to the same second. */
    predicate PrintsBack(text: string) {
      parse(text).Some? && parse(Printed(text)) == Some(TruncateToSeconds(parse(text).value))
    }

    /**
      Printed text parses to its own instant or not at all. Receipts print with `strftime("%Y-...")`, which may leave
      years before 1000 unpadded, and such text does not parse.
     */
    ghost predicate Faithful() {
      forall text :: parse(text).Some? && parse(Printed(text)).Some? ==> PrintsBack(text)
    }

    /** Printed text is trimmed, nonempty and parses to its own instant: `isoformat`, with which mandates print. */
    ghost predicate Lawful() {
      forall text :: parse(text).Some? ==> PrintsBack(text) && Printed(text) != "" && Trimmed(Printed(text))
    }
  }

  function TruncateToSeconds(micros: int): int {
    micros / 1_000_000 * 1_000_000
  }

  lemma TruncateTwice(micros: int)
    ensures TruncateToSeconds(TruncateToSeconds(micros)) == TruncateToSeconds(micros)
  {
    assert micros / 1_000_000 * 1_000_000 / 1_000_000 == micros / 1_000_000;
  }
}
