/** Where the block list comes from: the configured words and the lines of a file, normalised alike. The
    normalisation itself (NFKC, lower case, zero-width characters) is a parameter. */
module Blocklists {
  import opened Governance
  import opened SubstringSearch

  /** A line of the file that is neither blank nor a comment. */
  predicate IsEntry(line: string) {
    line != "" && line[0] != '#' && !("//" <= line)
  }

  /** The words to look for, as a set. */
  function BlockedWords(words: seq<string>, lines: seq<string>, normalize: string -> string): set<string> {
    (set w | w in words && normalize(w) != "" :: normalize(w))
    + (set line | line in lines && IsEntry(Trim(line)) && normalize(Trim(line)) != "" :: normalize(Trim(line)))
  }

  /** The word that screening finds in some content; empty content is not looked at. */
  function WordIn(words: set<string>, normalize: string -> string, content: string): string {
    if content == "" then "" else NaiveMatch(words, normalize(content))
  }

  lemma OneMoreConfigured(words: seq<string>, i: nat, normalize: string -> string)
    requires i < |words|
    ensures BlockedWords(words[..i + 1], [], normalize)
         == BlockedWords(words[..i], [], normalize) + {normalize(words[i])} - {""}
  {
    assert words[..i + 1] == words[..i] + [words[i]];
  }

  lemma OneMoreLine(words: seq<string>, lines: seq<string>, i: nat, normalize: string -> string)
    requires i < |lines|
    ensures BlockedWords(words, lines[..i + 1], normalize)
         == BlockedWords(words, lines[..i], normalize)
            + (if IsEntry(Trim(lines[i])) then {normalize(Trim(lines[i]))} - {""} else {})
  {
    assert lines[..i + 1] == lines[..i] + [lines[i]];
  }

  /** The list so far, each word once, and the map that tells which words it has. */
  ghost predicate Lists(list: seq<string>, seen: set<string>) {
    WordSet(list) == seen && "" !in list && NoDuplicates(list)
  }

  method AddWord(list: seq<string>, seen: set<string>, normalized: string)
    returns (list': seq<string>, seen': set<string>)
    requires Lists(list, seen)
    ensures Lists(list', seen') && seen' == seen + {normalized} - {""}
  {
    list', seen' := list, seen;
    if normalized != "" && normalized !in seen {
      seen' := seen + {normalized};
      list' := list + [normalized];
    }
    assert WordSet(list') == seen';
  }

  /** Loads the words in order, each once; `lines` is empty when there is no file or it cannot be read. */
  method LoadBlocklist(words: seq<string>, lines: seq<string>, normalize: string -> string) returns (list: seq<string>)
    ensures WordSet(list) == BlockedWords(words, lines, normalize)
    ensures "" !in list && NoDuplicates(list)
  {
    list := [];
    var seen: set<string> := {};
    for i := 0 to |words|
      invariant Lists(list, seen) && seen == BlockedWords(words[..i], [], normalize)
    {
      OneMoreConfigured(words, i, normalize);
      list, seen := AddWord(list, seen, normalize(words[i]));
    }
    assert words[..|words|] == words;
    for i := 0 to |lines|
      invariant Lists(list, seen) && seen == BlockedWords(words, lines[..i], normalize)
    {
      OneMoreLine(words, lines, i, normalize);
      var line := Trim(lines[i]);
      if line == "" || line[0] == '#' || "//" <= line {
        continue;
      }
      list, seen := AddWord(list, seen, normalize(line));
    }
    assert lines[..|lines|] == lines;
  }
}
