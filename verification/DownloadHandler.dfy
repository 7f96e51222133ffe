/** One request on a download connection: parse it, send the files, book the download. */
module DownloadHandler {
  import opened Common
  import opened Frames
  import Uploads
  import Accounts
  import AccountHandlers
  import Downloads
  import DownloadStream

  datatype Turn = Closed | Panic | Sent(request: Request)

  /** The handler's loop body. Files are sent and the download is booked exactly for
      an accepted request for a known item none of whose files is missing; then a
      client decodes the messages to the item's files. Otherwise nothing is booked:
      the connection closes on a request that breaks off or names no item, and panics
      on a malformed one or a missing file. */
  method Serve(text: Text, accounts: AccountHandlers.AccountTrees, msg: Bytes, store: Uploads.Store,
               trees: Downloads.DownloadTrees, now: nat)
    returns (turn: Turn, msgs: seq<Bytes>)
    modifies trees
    ensures turn.Sent? <==>
              var parsed := ParseRequest(text, Accounts.CookieOk(accounts.cookies), msg);
              parsed.Accepted? && parsed.value.softwareId in store.software
              && store.software[parsed.value.softwareId].files.Keys <= store.game.Keys
    ensures turn.Closed? <==>
              var parsed := ParseRequest(text, Accounts.CookieOk(accounts.cookies), msg);
              parsed.Broke? || (parsed.Accepted? && parsed.value.softwareId !in store.software)
    ensures turn.Sent? ==>
              && ParseRequest(text, Accounts.CookieOk(accounts.cookies), msg) == Accepted(turn.request)
              && var files := store.software[turn.request.softwareId].files;
                 (DownloadStream.Sendable(files, store.game) ==>
                   && DownloadStream.Decode(msgs).Some?
                   && DownloadStream.Delivered(files, store.game, DownloadStream.Decode(msgs).value))
    ensures trees.View()
         == if turn.Sent? then Downloads.Record(old(trees.View()), turn.request.username, turn.request.softwareId, now)
            else old(trees.View())
  {
    msgs := [];
    var parsed := ParseRequest(text, Accounts.CookieOk(accounts.cookies), msg);
    if parsed.Broke? {
      return Closed, [];
    }
    if parsed.Panicked? {
      return Panic, [];
    }
    var request := parsed.value;
    if request.softwareId !in store.software {
      return Closed, [];
    }
    var sent;
    sent, msgs := DownloadStream.SendFiles(store.software[request.softwareId].files, store.game);
    if !sent {
      return Panic, msgs;
    }
    trees.RecordDownload(request.username, request.softwareId, now);
    turn := Sent(request);
  }
}
