/** The values that pass between the feature extractor, the dictionary and the
    matching engine. */
module Features {
  import opened Basics

  /** Frame tags that mark segmentation boundaries. */
  const StartAnalysis: string := "start analysis"
  const Silence: string := "silence"
  const Stop: string := "stop"

  /** One token: the spectral features of one chunk, as the external feature
      builder produces them. `weighting` is set when a template is compiled;
      `shift` is the same features computed on the half-chunk-shifted buffer. */
  datatype Characteristic = Characteristic(
    norm: seq<real>,
    tokenPeaks: seq<real>,
    df: int,
    peaks: seq<int>,
    weighting: Option<real>,
    shift: Option<Characteristic>)

  /** One learned template of a word. */
  datatype DictEntry = DictEntry(id: string, uuid: string, characteristic: seq<Characteristic>)
}
