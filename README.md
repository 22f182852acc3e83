# git-track in Dafny

git-track is a small command-line tool. It lets a user track extra upstream
branches by editing the fetch refspecs of a repository's remotes. It has
three commands:

- `add <branch>` appends the wildcard refspec
  `+refs/heads/<branch>*:refs/remotes/origin/<branch>*` to every remote's
  fetch list.
- `rm <branch>` removes from every remote's fetch list each refspec that
  decodes to `<branch>`.
- `ls` prints the branch name that each refspec decodes to.

This project models the tool's refspec codec and its three handlers over an
already loaded configuration. It is split into three modules:

- `RefSpecCodec` (`codec.dfy`) holds the codec:
  - `Index` is Go's `strings.Index`, specified as "the first occurrence, or -1".
  - `Inflate` is `inflateBranch`.
  - `Deflate` is `deflateBranch`. It returns a `Panic` value wherever the Go
    slice expressions panic: when the refspec is shorter than the 12
    characters it cuts off, or when no `*:` follows them, so that the slice
    end is -1.
- `FetchLists` (`fetch_lists.dfy`) describes, as values, what `rm` and `ls` do
  to one remote's fetch list:
  - `FilterOut` is the list that `rm` rebuilds for one remote.
  - `ListFetch` gives the lines that `ls` prints for one remote, together with
    the panic that stops it, if there is one.
  - Lemmas relate these functions to each other and to the codec.
- `GitTrack` (`track.dfy`) holds the handlers:
  - The configuration is a `Config` object. It maps each remote name to a
    `Remote` object whose `fetch` sequence the handlers overwrite in place.
  - `Add` and `Remove` loop over the remotes in any order, since Go's map
    iteration order is random. On success each then persists the whole
    configuration once through `Repository.SetConfig`.
  - `FilterFetch` is `remove`'s inner loop. It is proved equal to `FilterOut`.
  - `Ls` gives each remote's listing without changing anything.

Strings are sequences of characters, while Go strings are bytes; see
`RefSpecCodec.Deflate` under "## Left out" for where this matters.

On malformed refspecs and on the round trip, the model states what the code
does:

- Malformed refspecs: the code panics in exactly two cases, modelled as
  `PrefixOutOfRange` and `MarkerNotFound`. So `ls` and `rm` stop at the first
  such entry.
- The code never reads the first 12 characters of a refspec
  (`DeflateIgnoresPrefix`); `RoundTrip` proves that having no `*:` is both
  necessary and sufficient for a branch name to survive the round trip.

## Model

| member | source | states |
|---|---|---|
| RefSpecCodec.Index | cmd/git-track.go:80 | `strings.Index`: -1 exactly when `sep` does not occur; otherwise an occurrence with none before it |
| RefSpecCodec.Inflate | cmd/git-track.go:73-75 | the refspec's length is 35 plus twice the branch's; after the 12-character `+refs/heads/` it reads `<b>*:refs/remotes/origin/<b>*`, for every branch including the empty one |
| RefSpecCodec.Deflate | cmd/git-track.go:77-83 | succeeds exactly when the refspec has at least 12 characters and `*:` occurs after them; panics with PrefixOutOfRange exactly when it is shorter than 12 and with MarkerNotFound otherwise; on success the result is what follows the 12 characters up to an occurrence of `*:`, and the result itself contains no `*:` (so that occurrence is the first) |
| RefSpecCodec.DeflateIgnoresPrefix | cmd/git-track.go:79 | the first 12 characters are discarded unchecked: any 12 characters in front of the same tail decode the same way |
| RefSpecCodec.DeflateInflate | cmd/git-track.go:73-83 | decoding an encoded branch gives the branch when it contains no `*:` and otherwise its part before the first `*:` |
| RefSpecCodec.RoundTrip | cmd/git-track.go:73-83 | `Deflate(Inflate(b)) == Ok(b)` if and only if `b` contains no `*:` |
| FetchLists.FilterOut | cmd/git-track.go:121-127 | the rebuilt list exists exactly when every entry decodes; otherwise the panic is that of the first undecodable entry; the result is a subsequence of the old list in which no entry decodes to the branch |
| FetchLists.FilterOutCounts | cmd/git-track.go:121-127 | each entry that does not decode to the branch keeps its multiplicity; entries that do are all dropped |
| FetchLists.FilterOutAppend | cmd/git-track.go:122-127 | filtering works entry by entry: filtering a concatenation concatenates the filtered parts, and a panic in the first part comes first |
| FetchLists.FilterOutIdempotent | cmd/git-track.go:121-128 | running rm a second time with the same branch changes nothing |
| FetchLists.FilterOutUnchanged | cmd/git-track.go:121-128 | rm leaves a list unchanged if and only if every entry decodes and none decodes to the branch |
| FetchLists.RemoveAfterAdd | cmd/git-track.go:104-127 | for a marker-free branch, rm after add gives the same result as rm alone, whatever the list held before |
| FetchLists.RemoveUndoesAdd | cmd/git-track.go:104-127 | on a decodable list with no entry for the branch, rm after add restores the original list |
| FetchLists.ListFetch | cmd/git-track.go:90-95 | `ls` runs to the end exactly when every entry decodes, and otherwise stops at the first undecodable entry; every printed line is non-empty, contains no `*:` and is the decoding of some entry; when it runs to the end, every non-empty decoded name is printed; at most one line per entry |
| FetchLists.ListAppend | cmd/git-track.go:90-95 | lines are printed in list order: listing a concatenation prints the lines of the first part and then those of the second, unless the first part panics |
| FetchLists.ListAfterAdd | cmd/git-track.go:85-108 | after add of a marker-free branch, ls prints the old lines followed by the branch, or nothing more when the branch is empty |
| FetchLists.AddTwiceListsTwice | cmd/git-track.go:85-108 | add does not deduplicate: adding a branch twice makes ls print it twice |
| FetchLists.ListAfterRemove | cmd/git-track.go:85-128 | after a successful rm, ls runs to the end and never prints the removed branch |
| FetchLists.ReleaseScenario | cmd/git-track.go:73-128 | starting from an empty list, add `release` makes ls print exactly `release`, and rm `release` then empties the list again |
| GitTrack.Repository.SetConfig | cmd/git-track.go:109 | persisting stores the fetch lists of every remote of the configuration |
| GitTrack.Add | cmd/git-track.go:99-113 | the set of remote names is unchanged; each remote's new list is its old list with `Inflate(branch)` appended; the stored configuration equals the new one |
| GitTrack.FilterFetch | cmd/git-track.go:118-128 | the inner loop of remove computes exactly `FilterOut` of the remote's list, including the panic |
| GitTrack.Remove | cmd/git-track.go:115-136 | the set of remote names is unchanged; it completes if and only if every remote's list decodes, and then each new list is `FilterOut` of the old one and is persisted; after a panic, some remote's list does not decode, every remote holds either its old list or its filtered one, and nothing is persisted |
| GitTrack.Ls | cmd/git-track.go:85-97 | one listing per remote name, reading the configuration only; each remote's listing is `ListFetch` of its fetch list; no printed line is empty or contains `*:` |

## Left out

- `findRepository` is not modelled. It walks up the filesystem with
  `filepath.Abs` and `os.Stat`, which is I/O.
- `main` is not modelled. It parses `os.Args` with flag sets and exits with
  code 10 on an unknown command. It also reads `Args()[0]` without a check,
  which would crash when the branch argument is missing. All of this is
  process plumbing.
- Opening the repository and loading its configuration (`git.PlainOpen`,
  `repo.Config()`) are left out, because they are foreign library I/O. The
  handlers start from an already loaded `Config`.
- Repository.SetConfig: the model stores the fetch lists exactly as they are
  in memory. Persisting belongs to the git library, which is not part of this
  model. So the model does not capture a failure to write, or the panic that
  follows one. Nor does it capture any check or rewriting the library applies
  to the configuration before storing it. That includes rejecting a refspec
  (for example one built from a branch name that contains `:` or `*`), and
  filling an emptied fetch list with a default refspec. The `stored`
  postconditions of `GitTrack.Add` and `GitTrack.Remove` rest on this
  simplification.
- GitTrack.Ls: it returns the lines for each remote instead of printing
  them. It does not model the order between remotes, which is random in Go.
  It also does not model that a panic in one remote's listing stops the
  remotes that Go would visit after it.
- GitTrack.Add: it never panics in the model. Its only failure is in
  `SetConfig`, whose errors are left out, whether they come from a refused
  configuration or a failed write.
- RefSpecCodec.Deflate: the length test and the 12-element cut count
  characters, where Go counts bytes. The model matches Go only for refspecs
  whose first 12 bytes are ASCII; every refspec that `add` writes is of that
  kind (`Inflate` puts `+refs/heads/` there). A fetch entry with a multi-byte
  character among its first 12 bytes, written by another tool, can decode
  differently in Go: it may cut inside that character, or decode where the
  model reports `PrefixOutOfRange`.
