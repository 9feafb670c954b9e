/** The collaborators the fetchers act on: the persisted settings object
    (whose `tweaks` section is the version record), the game directory's
    file presence, what a download yields, and the messages an operation
    hands back to the window. */
module Host {

  /** What an operation returns beside its success flag: normally a list of
      lines; on some failure paths the code returns one bare string. */
  datatype Messages = MessageList(items: seq<string>) | MessageText(text: string)

  /** The result of downloading an artifact (and, for an archive, opening
      and extracting it):
      - `Failed`: the exception text of a download, archive or write failure
        raised before anything was written into the game directory (a
        download into a temporary file, a corrupt archive);
      - `Fetched`: the download arrived, with the member names of the
        archive (a raw download carries no meaningful members);
      - `Interrupted`: an exception raised while the file was being written
        into the game directory (a raw download streamed straight to its
        target, or an extraction failing part-way). The target exists,
        partly written; for an extraction of every member, `written` names
        the members it had started writing. */
  datatype Fetch =
    | Failed(error: string)
    | Fetched(members: set<string>)
    | Interrupted(error: string, written: set<string>)

  /** The text of the `KeyError` that `ZipFile.extract` raises for a member the
      archive does not hold, as the exception prints. */
  function MissingMember(member: string): string
  {
    "\"There is no item named '" + member + "' in the archive\""
  }

  /** The settings object: `turtle.turtle_path` and the `tweaks` section,
      which maps a tweak's name to the version tag installed on disk. */
  class Config {
    var turtlePath: string
    var tweaks: map<string, string>
  }

  /** The paths (files and directories) that exist on disk. */
  class FileSystem {
    var present: set<string>
  }
}
