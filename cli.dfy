/**
 * What the command-line parser of the examples hands back: for each argument the
 * program registered and the user supplied, its value, keyed by the argument's name.
 * Looking up a name gives nothing when that argument was not supplied, and also when no
 * argument of that name was ever registered.
 */
module Cli {
  import opened Common

  type Matches = map<string, string>

  /** `matches.value_of(name)`. */
  function ValueOf(matches: Matches, name: string): Option<string> {
    if name in matches then Some(matches[name]) else None
  }

  /** The parser only ever records values under the names in `registered`. */
  predicate RegisteredOnly(matches: Matches, registered: set<string>) {
    matches.Keys <= registered
  }
}
