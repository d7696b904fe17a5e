/** The optional value the scraper passes around wherever Python uses `None`. */
module Wrappers {

  datatype Option<+T> = None | Some(value: T)
}
