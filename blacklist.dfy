/** The name/symbol blacklist: a set of lower-cased terms read from a text
    file, and a case-insensitive substring test of a token's name and
    symbol against it. */
module Blacklist {
  import opened Common
  import opened Text

  /** The term a line of the blacklist file contributes: its trimmed,
      lower-cased text, or nothing for a blank line. */
  function TermOf(line: string): set<string> {
    var t := Trim(line);
    if t != "" then {Lower(t)} else {}
  }

  /** The union of `f` over the lines, accumulated front to back as the
      loading loop does. */
  function Collect(f: string -> set<string>, lines: seq<string>): set<string>
    decreases |lines|
  {
    if lines == [] then {} else Collect(f, lines[..|lines| - 1]) + f(lines[|lines| - 1])
  }

  /** The terms a blacklist file's lines contribute. */
  function TermsOf(lines: seq<string>): set<string> {
    Collect(TermOf, lines)
  }

  lemma {:induction false} CollectExactly(f: string -> set<string>, lines: seq<string>, t: string)
    ensures t in Collect(f, lines) <==> exists i :: 0 <= i < |lines| && t in f(lines[i])
    decreases |lines|
  {
    if lines != [] {
      var init := lines[..|lines| - 1];
      CollectExactly(f, init, t);
      if t in Collect(f, init) {
        var i :| 0 <= i < |init| && t in f(init[i]);
        assert lines[i] == init[i];
      }
      if exists i :: 0 <= i < |lines| && t in f(lines[i]) {
        var i :| 0 <= i < |lines| && t in f(lines[i]);
        if i < |init| {
          assert init[i] == lines[i];
        }
      }
    }
  }

  /** Adding one more line adds exactly that line's contribution. */
  lemma CollectStep(f: string -> set<string>, lines: seq<string>, i: nat)
    requires i < |lines|
    ensures Collect(f, lines[..i + 1]) == Collect(f, lines[..i]) + f(lines[i])
  {
    assert lines[..i + 1][..i] == lines[..i];
  }

  /** The set holds exactly the terms of the lines: the trimmed,
      lower-cased text of each non-blank line. */
  lemma TermsOfExactly(lines: seq<string>, t: string)
    ensures t in TermsOf(lines) <==> exists i :: 0 <= i < |lines| && t in TermOf(lines[i])
  {
    CollectExactly(TermOf, lines, t);
  }

  /** Blank and white-space-only lines are skipped, so no term is empty. */
  lemma NoEmptyTerm(lines: seq<string>)
    ensures "" !in TermsOf(lines)
  {
    TermsOfExactly(lines, "");
  }

  /** The blacklist after loading `file` into `terms`; a missing file
      (None) leaves the set as it was. */
  function Loaded(terms: set<string>, file: Option<string>): set<string> {
    if file.Some? then terms + TermsOf(Lines(file.value)) else terms
  }

  /** Loading only adds terms, and loading the same file twice gives the
      same set as loading it once. */
  lemma LoadGrowsAndIsIdempotent(terms: set<string>, file: Option<string>)
    ensures terms <= Loaded(terms, file)
    ensures Loaded(Loaded(terms, file), file) == Loaded(terms, file)
  {
  }

  /** `name || ""`: a missing name or symbol reads as the empty string. */
  function OrEmpty(s: Option<string>): string {
    if s.Some? then s.value else ""
  }

  /** Some term occurs in the lower-cased name or the lower-cased symbol. */
  predicate Matches(terms: set<string>, name: Option<string>, symbol: Option<string>) {
    exists t :: t in terms && (Contains(Lower(OrEmpty(name)), t) || Contains(Lower(OrEmpty(symbol)), t))
  }

  class Blacklist {
    var terms: set<string>

    /** No stored term is blank. */
    ghost predicate Valid()
      reads this
    {
      "" !in terms
    }

    constructor ()
      ensures Valid() && terms == {}
    {
      terms := {};
    }

    /** Reads the file's text (None when the file is missing or unreadable)
        and adds the term of every non-blank line. */
    method Load(file: Option<string>)
      requires Valid()
      modifies this
      ensures Valid()
      ensures terms == Loaded(old(terms), file)
    {
      if file.None? {
        return;
      }
      var lines := Lines(file.value);
      var i := 0;
      while i < |lines|
        invariant 0 <= i <= |lines|
        invariant terms == old(terms) + TermsOf(lines[..i])
      {
        var trimmed := Trim(lines[i]);
        if trimmed != "" {
          terms := terms + {Lower(trimmed)};
        }
        CollectStep(TermOf, lines, i);
        i := i + 1;
      }
      assert lines[..i] == lines;
      NoEmptyTerm(lines);
    }

    /** True when some term is a substring of the lower-cased name or of the
        lower-cased symbol. */
    method IsBlacklisted(name: Option<string>, symbol: Option<string>) returns (r: bool)
      ensures r <==> Matches(terms, name, symbol)
      ensures terms == {} ==> !r
    {
      var lowerName := Lower(OrEmpty(name));
      var lowerSymbol := Lower(OrEmpty(symbol));
      var unseen := terms;
      while unseen != {}
        invariant unseen <= terms
        invariant forall t :: t in terms && t !in unseen ==>
          !Contains(lowerName, t) && !Contains(lowerSymbol, t)
        decreases unseen
      {
        var term :| term in unseen;
        if Contains(lowerName, term) || Contains(lowerSymbol, term) {
          return true;
        }
        unseen := unseen - {term};
      }
      return false;
    }
  }
}
