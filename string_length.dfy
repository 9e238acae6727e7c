/** The visible length of a string: its length when it is plain ASCII,
    otherwise the number of grapheme clusters counted by a lazily created,
    process-wide splitter. */
module StringLength {

  /** Every code point lies in U+0020 to U+007F (the space up to DEL). */
  function IsAscii(value: string): (r: bool)
    ensures r <==> forall i :: 0 <= i < |value| ==> 0x20 <= value[i] as int <= 0x7F
  {
    |value| == 0 || (0x20 <= value[0] as int <= 0x7F && IsAscii(value[1..]))
  }

  /** A control character (tab, newline, ...) anywhere makes the text
      non-ASCII, so such text is counted by the splitter. */
  lemma ControlCharacterIsNotAscii(value: string, i: nat)
    requires i < |value| && (value[i] as int) < 0x20
    ensures !IsAscii(value)
  {
  }

  /** An instance of the grapheme-splitting library. How it segments text is
      not part of this model: its count is whatever function it was built
      with. */
  class Graphemer {
    const countGraphemes: string -> nat

    constructor (segmentation: string -> nat)
      ensures countGraphemes == segmentation
    {
      countGraphemes := segmentation;
    }
  }

  /** The module-level state: the `splitter` cell, empty until the first
      non-ASCII text is measured. `segmentation` is what a newly constructed
      splitter counts with. */
  class LengthHelper {
    var splitter: Graphemer?
    const segmentation: string -> nat

    constructor (segmentation: string -> nat)
      ensures splitter == null && this.segmentation == segmentation
    {
      splitter := null;
      this.segmentation := segmentation;
    }

    /** `getStringLength`. ASCII text is measured by its length and leaves the
        cell alone; other text is measured by the splitter, which is created
        on the first such call and kept from then on. */
    method GetStringLength(value: string) returns (n: nat)
      modifies this
      ensures IsAscii(value) ==> n == |value| && splitter == old(splitter)
      ensures !IsAscii(value) ==> splitter != null && n == splitter.countGraphemes(value)
      ensures old(splitter) != null ==> splitter == old(splitter)
      ensures old(splitter) == null && !IsAscii(value) ==> fresh(splitter) && splitter.countGraphemes == segmentation
    {
      if IsAscii(value) {
        return |value|;
      }
      if splitter == null {
        splitter := new Graphemer(segmentation);
      }
      n := splitter.countGraphemes(value);
    }
  }

  /** Two measurements in a row share one splitter: the one the first
      non-ASCII text creates (`created`) is the one the second text finds in
      the cell (`reused`), and the cell still holds it afterwards. */
  method MeasureTwice(helper: LengthHelper, first: string, second: string)
    returns (m: nat, n: nat, ghost created: Graphemer?, ghost reused: Graphemer?)
    requires helper.splitter == null && !IsAscii(first) && !IsAscii(second)
    modifies helper
    ensures created != null && fresh(created) && reused == created && helper.splitter == created
    ensures m == helper.segmentation(first) && n == helper.segmentation(second)
  {
    m := helper.GetStringLength(first);
    created := helper.splitter;
    n := helper.GetStringLength(second);
    reused := helper.splitter;
  }
}
