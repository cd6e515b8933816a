/** The part of MySQL the migration executors rely on: schema statements commit implicitly and survive a
    crash; rows inserted inside a transaction survive only after a commit. */
module Sql {

  /** What a restarted server still has. */
  datatype Durable<O(==), F(==)> = Durable(objects: set<O>, facts: set<F>)

  datatype Statement<O(==), F(==)> =
    | CreateTable(table: O)      // CREATE TABLE IF NOT EXISTS
    | CreateView(view: O)        // CREATE VIEW, an error when the view exists
    | InsertIgnore(tables: set<O>, rows: set<F>) // INSERT IGNORE, an error without its table

  /** The outcome of one statement for the issuing connection. */
  datatype Effect<O(==), F(==)> = Effect(durable: Durable<O, F>, pending: set<F>, rowCount: nat, ok: bool)

  /** `rejected` are the rows a constraint makes `IGNORE` skip; a missing table is no such thing. */
  function Execute<O(==), F(==)>(durable: Durable<O, F>, pending: set<F>, statement: Statement<O, F>,
                                 autocommit: bool, rejected: set<F>): Effect<O, F>
  {
    match statement
    case CreateTable(table) =>
      Effect(Durable(durable.objects + {table}, durable.facts + pending), {}, 0, true)
    case CreateView(view) =>
      Effect(Durable(durable.objects + {view}, durable.facts + pending), {}, 0, view !in durable.objects)
    case InsertIgnore(tables, rows) =>
      var added := rows - rejected - durable.facts - pending;
      if !(tables <= durable.objects) then
        Effect(durable, pending, 0, false)
      else if autocommit then
        Effect(Durable(durable.objects, durable.facts + pending + added), {}, |added|, true)
      else
        Effect(durable, pending + added, |added|, true)
  }
}
