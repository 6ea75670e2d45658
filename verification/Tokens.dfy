/**
 Token pairs (`TokenPair` of crates/zephyrvox-http/src/credentials.rs): the access token,
 and everything else a pair is compared by.
 */
module Tokens {
  datatype Pair = Pair(access: nat, rest: nat)
}
