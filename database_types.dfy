/**
 * Database options shared by the two PostgreSQL modules: the connection settings, the
 * module type tag `DatabaseModuleType.Postgresql`
 * (src/common/core/constants/_database.constant.ts) and the database URL written to the
 * logs, in which the password is replaced by the placeholder `__PASSWORD__`.
 */
module DatabaseTypes {
  import JsValues

  /** `DatabaseModuleType.Postgresql` */
  const PostgresqlType := "postgresql"

  const PasswordPlaceholder := "__PASSWORD__"

  /** `connection: { host, port, user, password, database }`; the port is a whole number. */
  datatype Connection = Connection(host: string, port: nat, user: string, password: string, database: string)

  /** `${DatabaseModuleType.Postgresql}://${user}:__PASSWORD__@${host}:${port}/${database}` */
  function Url(c: Connection): (url: string)
    ensures |url| > |PostgresqlType| + 3 + |c.user| + |PasswordPlaceholder| + 2
    ensures url[..|PostgresqlType| + 3] == PostgresqlType + "://"
    ensures url[|PostgresqlType| + 3..][..|c.user|] == c.user
    ensures url[|PostgresqlType| + 3 + |c.user|..][..|PasswordPlaceholder| + 2] == ":" + PasswordPlaceholder + "@"
  {
    PostgresqlType + "://" + c.user + ":" + PasswordPlaceholder + "@" + c.host + ":" + JsValues.NatString(c.port)
    + "/" + c.database
  }

  /** The URL does not depend on the password: two connections differing only there share it. */
  lemma UrlHidesPassword(c: Connection, password: string)
    ensures Url(c.(password := password)) == Url(c)
  {
  }
}
