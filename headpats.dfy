/** The `!headpat` command, alias `!pat` (app/main/fun/headpats.rb). */
module Headpats {
  import opened Common
  import opened CounterTables

  const Word := "headpats"

  /** `target` is the user `SERVER.get_user` resolves from the arguments,
      if any; `table` holds the `HeadpatUser` rows. */
  method Headpat(table: CounterTable, invoker: UserId, target: Option<UserId>, inflector: Inflector)
    returns (reply: Option<string>)
    modifies table
    ensures target.None? || target.value == invoker ==> table.rows == old(table.rows) && reply.None?
    ensures target.Some? && target.value != invoker ==>
      && table.rows == Exchanged(old(table.rows), invoker, target.value)
      && reply == Some(Tally(table.rows[invoker], Word, inflector))
  {
    reply := Command(table, invoker, target, Word, inflector);
  }
}
