/** Failure outcomes of the light-curve download, one per way the Python code
    raises out of `download_data`. */
module Errors {

  datatype Error =
    | UnknownSector(sector: int)  // `sector_codes[sector]` raises KeyError
    | FetchFailed(url: string)    // in test mode `pf.open` is not guarded by `try`
    | ZeroDivision                // `N/binfac` with binfac 0, or `// 0` inside `rebin`
    | ShapeMismatch               // numpy refuses a broadcast or a reshape
    | NoData                      // `np.hstack` of an empty list

  datatype Result<+T> = Ok(value: T) | Err(error: Error)

  datatype Option<+T> = None | Some(value: T)
}
