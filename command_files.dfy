/** `latest_cmd_file` and `is_file_recent`: which command file, if any, a
    polling cycle takes up. The directory listing is abstract: a map from
    each entry's name to its modification time, in seconds. */
module CommandFiles {

  /** The age, in seconds, beyond which a new command file is ignored. */
  const FreshnessWindow: real := 900.0

  /** The glob pattern `kepler*.log`. */
  predicate MatchesCmdPattern(name: string) {
    |name| >= 10 && name[..6] == "kepler" && name[|name| - 4..] == ".log"
  }

  /** `is_file_recent`: the file is at most `sec` seconds old at `now`. */
  predicate IsFileRecent(mtime: real, now: real, sec: real) {
    now - mtime <= sec
  }

  /** The `current_files` of one poll: the listing's names that match the pattern. */
  function CurrentFiles(listing: map<string, real>): (r: set<string>)
  {
    set p | p in listing && MatchesCmdPattern(p)
  }

  /** The outcome `latest_cmd_file` may return: `""`, or a file of the
      current listing that was not seen before, whose modification time is
      the largest among such new files, and that is fresh; and it is `""`
      exactly when no new file is fresh. */
  ghost predicate IsSelection(cmdFile: string, previous: set<string>, listing: map<string, real>, now: real) {
    var newFiles := CurrentFiles(listing) - previous;
    (cmdFile != "" <==> exists g :: g in newFiles && IsFileRecent(listing[g], now, FreshnessWindow)) &&
    (cmdFile != "" ==>
      cmdFile in newFiles &&
      IsFileRecent(listing[cmdFile], now, FreshnessWindow) &&
      forall g :: g in newFiles ==> listing[g] <= listing[cmdFile])
  }

  /** `max(files, key=os.path.getmtime)`: one of the files with the largest
      modification time; on a tie the first met in iteration order. */
  method SelectNewest(files: set<string>, mtime: map<string, real>) returns (latest: string)
    requires files != {} && files <= mtime.Keys
    ensures latest in files
    ensures forall g :: g in files ==> mtime[g] <= mtime[latest]
  {
    latest :| latest in files;
    var rest := files - {latest};
    while rest != {}
      invariant rest <= files && latest in files
      invariant forall g :: g in files - rest ==> mtime[g] <= mtime[latest]
      decreases rest
    {
      var g :| g in rest;
      if mtime[g] > mtime[latest] {
        latest := g;
      }
      rest := rest - {g};
    }
  }

  /** The choice `latest_cmd_file` makes, given the set seen by the previous
      call; the caller then replaces that set by `CurrentFiles(listing)`. */
  method SelectCmdFile(previous: set<string>, listing: map<string, real>, now: real) returns (cmdFile: string)
    ensures IsSelection(cmdFile, previous, listing, now)
  {
    var newFiles := CurrentFiles(listing) - previous;
    cmdFile := "";
    if newFiles != {} {
      var latest := SelectNewest(newFiles, listing);
      if IsFileRecent(listing[latest], now, FreshnessWindow) {
        cmdFile := latest;
      }
    }
  }

  /** Two admissible outcomes differ at most by a tie in modification time. */
  lemma SelectionUpToTies(a: string, b: string, previous: set<string>, listing: map<string, real>, now: real)
    requires IsSelection(a, previous, listing, now) && IsSelection(b, previous, listing, now)
    ensures a == b || (a in listing && b in listing && listing[a] == listing[b])
  {
  }
}
