/**
 * The connection a class issues its statements on, the providers that open
 * one, and the per-class registry of src/Base.php (setConnection,
 * getConnection, setConnectionProvider, getConnectionProvider).
 *
 * A connection is its quoting rules, the log of the statements sent to it,
 * the auto-increment counter behind lastInsertId, and a fixed answer for the
 * first column of the rows each query returns. PDO, drivers and logging to a
 * file are not part of this model.
 */
module Connections {
  import opened Wrappers
  import opened ExpressionTree

  /** A statement as the library hands it to the connection: query() or exec(). */
  datatype Statement = Queried(sql: string) | Executed(sql: string)

  class Connection {
    const ctx: RenderContext
    /** The first column of the rows the database returns for each query text. */
    const column: string -> seq<string>
    var log: seq<Statement>
    var lastInsertId: int
    /** The id the next row inserted into an auto-increment table receives. */
    var nextId: int

    constructor (ctx: RenderContext, column: string -> seq<string>, firstId: int)
      ensures this.ctx == ctx && this.column == column
      ensures log == [] && lastInsertId == 0 && nextId == firstId
    {
      this.ctx := ctx;
      this.column := column;
      log := [];
      lastInsertId := 0;
      nextId := firstId;
    }

    /** exec() of a statement that inserts no auto-increment row. */
    method Exec(sql: string)
      modifies this
      ensures log == old(log) + [Executed(sql)]
      ensures lastInsertId == old(lastInsertId) && nextId == old(nextId)
    {
      log := log + [Executed(sql)];
    }

    /** exec() of an INSERT into an auto-increment table: lastInsertId becomes the new row's id. */
    method ExecInsert(sql: string)
      modifies this
      ensures log == old(log) + [Executed(sql)]
      ensures lastInsertId == old(nextId) && nextId == old(nextId) + 1
    {
      log := log + [Executed(sql)];
      lastInsertId := nextId;
      nextId := nextId + 1;
    }

    /** query(sql)->fetchAll(PDO::FETCH_COLUMN) */
    method QueryColumn(sql: string) returns (values: seq<string>)
      modifies this
      ensures log == old(log) + [Queried(sql)]
      ensures values == column(sql)
      ensures lastInsertId == old(lastInsertId) && nextId == old(nextId)
    {
      log := log + [Queried(sql)];
      values := column(sql);
    }
  }

  /**
   * A connection provider. What its getConnection() returns is decided anew on
   * every call (a Dsn provider opens a new connection each time), so that
   * connection is a parameter of each resolution that reaches a provider.
   */
  class Provider {
    constructor ()
    {
    }
  }

  /** static::class of Base itself, the fallback slot of both maps. */
  const BaseClass := "Gforces\\ActiveRecord\\Base"

  const NoProvider := Error(RecordException, "Connection provider is not set")

  /** getConnectionProvider(): the class's own provider, else Base's. */
  function ProviderIn(providers: map<string, Provider>, cls: string): (r: Result<Provider>)
    ensures r.Success? <==> cls in providers || BaseClass in providers
    ensures cls in providers ==> r == Success(providers[cls])
    ensures cls !in providers && BaseClass in providers ==> r == Success(providers[BaseClass])
    ensures r.Failure? ==> r.error == NoProvider
  {
    if cls in providers then Success(providers[cls])
    else if BaseClass in providers then Success(providers[BaseClass])
    else Failure(NoProvider)
  }

  /**
   * getConnection(): the class's own connection, else Base's, else what its
   * provider's getConnection() returns on this call (`answer`).
   */
  function ResolveIn(connections: map<string, Connection>, providers: map<string, Provider>, cls: string,
                     answer: Connection): Result<Connection> {
    if cls in connections then Success(connections[cls])
    else if BaseClass in connections then Success(connections[BaseClass])
    else
      var _ :- ProviderIn(providers, cls);
      Success(answer)
  }

  /** A class resolves a connection exactly when one of the four slots it looks at is filled. */
  lemma {:induction false} ResolveSucceeds(connections: map<string, Connection>, providers: map<string, Provider>,
                                           cls: string, answer: Connection)
    ensures ResolveIn(connections, providers, cls, answer).Success? <==>
            cls in connections || BaseClass in connections || cls in providers || BaseClass in providers
    ensures ResolveIn(connections, providers, cls, answer).Failure? ==>
            ResolveIn(connections, providers, cls, answer).error == NoProvider
  {
  }

  /** A class's own connection wins over everything else. */
  lemma {:induction false} OwnConnectionFirst(connections: map<string, Connection>, providers: map<string, Provider>,
                                              cls: string, c: Connection, answer: Connection)
    ensures ResolveIn(connections[cls := c], providers, cls, answer) == Success(c)
  {
  }

  /** Setting a connection for one class leaves what every other class resolves unchanged. */
  lemma {:induction false} SetConnectionIsolated(connections: map<string, Connection>, providers: map<string, Provider>,
                                                 cls: string, other: string, c: Connection, answer: Connection)
    requires cls != other && cls != BaseClass
    ensures ResolveIn(connections[cls := c], providers, other, answer) == ResolveIn(connections, providers, other, answer)
  {
  }

  /** Setting a provider for one class leaves what every other class resolves unchanged. */
  lemma {:induction false} SetProviderIsolated(connections: map<string, Connection>, providers: map<string, Provider>,
                                               cls: string, other: string, p: Provider, answer: Connection)
    requires cls != other && cls != BaseClass
    ensures ResolveIn(connections, providers[cls := p], other, answer) == ResolveIn(connections, providers, other, answer)
  {
  }

  /** Base's connection serves every class that has none of its own, ahead of any provider. */
  lemma {:induction false} BaseConnectionShared(connections: map<string, Connection>, providers: map<string, Provider>,
                                                cls: string, c: Connection, answer: Connection)
    requires cls !in connections
    ensures ResolveIn(connections[BaseClass := c], providers, cls, answer) == Success(c)
  {
  }

  /**
   * A connection obtained from Base's provider is cached under the class that
   * asked only, so a second class asks the provider again and gets whatever
   * it answers then, not the first class's connection.
   */
  lemma {:induction false} ProviderAnswerNotShared(connections: map<string, Connection>, providers: map<string, Provider>,
                                                   first: string, second: string, c1: Connection, c2: Connection)
    requires first != second && first != BaseClass
    requires first !in connections && second !in connections && BaseClass !in connections && BaseClass in providers
    ensures ResolveIn(connections, providers, first, c1) == Success(c1)
    ensures ResolveIn(connections[first := c1], providers, second, c2) == Success(c2)
  {
  }

  /** The per-class registry: the two static maps of Base. */
  class Registry {
    var connections: map<string, Connection>
    var providers: map<string, Provider>

    constructor ()
      ensures connections == map[] && providers == map[]
    {
      connections := map[];
      providers := map[];
    }

    function Resolve(cls: string, answer: Connection): Result<Connection>
      reads this
    {
      ResolveIn(connections, providers, cls, answer)
    }

    /** static::setConnection */
    method SetConnection(cls: string, c: Connection)
      modifies this
      ensures connections == old(connections)[cls := c] && providers == old(providers)
    {
      connections := connections[cls := c];
    }

    /** static::setConnectionProvider */
    method SetConnectionProvider(cls: string, p: Provider)
      modifies this
      ensures providers == old(providers)[cls := p] && connections == old(connections)
    {
      providers := providers[cls := p];
    }

    /**
     * static::getConnection(), where `answer` is what the provider returns if
     * it is asked: a connection obtained from a provider is cached in the
     * class's own slot; nothing else is written.
     */
    method GetConnection(cls: string, answer: Connection) returns (r: Result<Connection>)
      modifies this
      ensures r == old(Resolve(cls, answer))
      ensures providers == old(providers)
      ensures cls !in old(connections) && BaseClass !in old(connections) && r.Success? ==>
                r.value == answer && connections == old(connections)[cls := answer]
      ensures cls in old(connections) || BaseClass in old(connections) || r.Failure? ==>
                connections == old(connections)
      ensures r.Success? ==> forall later :: Resolve(cls, later) == r
    {
      if cls in connections {
        r := Success(connections[cls]);
      } else if BaseClass in connections {
        r := Success(connections[BaseClass]);
      } else {
        var p := ProviderIn(providers, cls);
        if p.Success? {
          r := Success(answer);
          connections := connections[cls := answer];
        } else {
          r := Failure(p.error);
        }
      }
    }
  }
}
