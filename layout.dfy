/** The per-line records the outline extractor works on. Each record stands for one text
    line of the PDF with its font metrics; reading them out of the PDF is not modelled. */
module Layout {

  /** One line: its text, 0-based page, largest span font size and style flags. */
  datatype TextElement = TextElement(text: string, page: nat, maxSize: real, isBold: bool, isItalic: bool)

  /** Font-size thresholds for the three heading levels. */
  datatype Thresholds = Thresholds(h1: real, h2: real, h3: real)

  /** Document-wide statistics: the most common font size and the level thresholds. */
  datatype DocStats = DocStats(dominant: real, thresholds: Thresholds)

  datatype Level = H1 | H2 | H3

  /** An outline entry before post-processing, still carrying its heading score. */
  datatype Entry = Entry(level: Level, text: string, page: nat, conf: real)

  /** An outline entry as returned to the caller, with the confidence removed. */
  datatype OutlineItem = OutlineItem(level: Level, text: string, page: nat)

  /** The extractor's result: a title and a flat outline. */
  datatype Structure = Structure(title: string, outline: seq<OutlineItem>)
}
