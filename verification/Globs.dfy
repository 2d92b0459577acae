/**
 Glob sets as the watchers use them. Compiling and matching a glob belongs to a library: what a
 raw glob matches is a parameter `matcher(glob, path)`.
 */
module Globs {
  type Matcher = (string, string) -> bool

  /** Compared by its raw globs; excludes are kept without their leading '!'. */
  datatype GlobSet = GlobSet(includes: set<string>, excludes: set<string>)

  predicate Excludes(matcher: Matcher, globs: GlobSet, path: string) {
    exists g :: g in globs.excludes && matcher(g, path)
  }

  predicate Matches(matcher: Matcher, globs: GlobSet, path: string) {
    && (exists g :: g in globs.includes && matcher(g, path))
    && !Excludes(matcher, globs, path)
  }

  /** No glob climbs out of its package. */
  predicate IsPackageLocal(globs: GlobSet) {
    && (forall g :: g in globs.includes ==> !("../" <= g))
    && (forall g :: g in globs.excludes ==> !("../" <= g))
  }
}
