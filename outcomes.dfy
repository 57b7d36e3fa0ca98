/** The errors `create_hdf5` can raise, and the result and option types
    that carry them. */
module Outcomes {

  datatype Option<+T> = None | Some(value: T)

  datatype Error =
    /** `np.max` of an empty rank list raises ValueError (tecplot_tools/hdf.py:44). */
    | EmptyVariables
    /** `v.shape[taxis]` raises IndexError for an axis outside the shape (line 50). */
    | TimeAxisOutOfRange(taxis: int)
    /** The explicit ValueError for a maximum rank above 4 (lines 52-54). */
    | RankTooHigh(rank: nat)
    /** `np.take(data, it, axis=taxis)` raises IndexError when the time axis of
        that 4-D variable is shorter than `nt` (line 64). */
    | TimeIndexOutOfRange(name: string, it: nat)
    /** `data[:]` raises IndexError on a 0-d array (line 70). */
    | ZeroRankSlice(name: string)
    /** `macro_filename` is never bound when `write_macro` is false, so the
        return statement raises UnboundLocalError (line 125). */
    | MacroPathUnbound

  datatype Result<+T> = Ok(value: T) | Err(error: Error)
}
