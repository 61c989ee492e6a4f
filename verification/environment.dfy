/** The process environment (`os.environ`), read by the argument builders and
    the search, and changed by executable resolution. */
module Environment {

  /** Variable names to values. */
  type Env = map<string, string>
}
