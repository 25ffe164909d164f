/** The error values that the core reports through `anyhow::Result`. */
module Errors {

  datatype Error =
    | ChannelCounterOverflow     // get_random_point: the draw counter cannot be incremented
    | LogLenNotU32               // gen_queries: log_max_len does not fit in u32
    | LogLenTooLarge             // gen_queries: 1 << log_max_len overflows usize
    | PathLengthMismatch         // verify_merkle_path: path length differs from the claimed depth
    | PathRootMismatch(leafIndex: nat)  // verify_merkle_path: the recomputed root differs

  datatype Result<T> = Ok(value: T) | Err(error: Error)
}
