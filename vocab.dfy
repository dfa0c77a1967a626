/** The names the evaluation script gives to its strings. */
module Vocab {
  /** An image id, as the data loaders and the description file spell it. */
  type Id = string

  /** A word of a caption. */
  type Token = string
}
