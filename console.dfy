/** The console progress bar the dump advances once per table. Only its counters are modelled. */
module Console {

  class ProgressBar {
    /** The number of steps the bar was created for. */
    var max: nat
    /** The number of steps advanced so far. */
    var progress: nat

    constructor (max: nat)
      ensures this.max == max && progress == 0
    {
      this.max := max;
      progress := 0;
    }

    /** Advance the bar by one step, within its maximum. */
    method Advance()
      requires progress < max
      modifies this
      ensures progress == old(progress) + 1 && max == old(max)
    {
      progress := progress + 1;
    }
  }
}
