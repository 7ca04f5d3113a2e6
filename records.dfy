/** The shapes of the stored documents the server routes read and write, and the role
    names the server and the client compare against. */
module Records {
  import opened Common

  type UserId = nat

  const UserRole := "user"
  const AdminRole := "admin"
  const SuperAdminRole := "superadmin"

  /** An account. Its `id` stands for the document's `_id`; timestamps are abstract clock values. */
  datatype User = User(
    id: UserId,
    username: string,
    email: string,
    passwordHash: string,
    role: string,
    blocked: bool,
    createdAt: int,
    updatedAt: int)

  /** A request to become an admin, created by the admin-request route. */
  datatype AdminRequest = AdminRequest(username: string, email: string, passwordHash: string)

  /** The fields of one spreadsheet row as the charts read them: header text to cell text. */
  type Row = map<string, string>

  /** One parsed spreadsheet row as the plain object `rowData`: its fields, and the order in
      which its keys were first assigned (which decides the order of `Object.keys`). */
  datatype RowObject = RowObject(fields: Row, order: seq<string>)

  /** A stored spreadsheet (`server/models/Upload.js`). */
  datatype Upload = Upload(id: nat, owner: UserId, filename: string, data: seq<RowObject>, uploadedAt: int)

  /** A stored chart configuration (`server/models/ChartAnalysis.js`). The schema has no
      `summary` path, so a posted summary is not stored. */
  datatype Analysis = Analysis(
    id: nat,
    userEmail: string,
    uploadId: string,
    chartType: string,
    xAxis: string,
    yAxis: string,
    chartImageBase64: string,
    createdAt: int)
}
