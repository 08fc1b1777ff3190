/** Sandbox records, as far as the reconcilers read them. */
module Sandboxes {

  datatype Mount = Mount(hostPath: string, guestPath: string)

  datatype Life = Running | Stopped | OtherLife

  datatype Sandbox = Sandbox(id: string, project: string, name: string, mounts: seq<Mount>, life: Life, removal: bool)

  function Handle(sb: Sandbox): string
  {
    sb.project + "/" + sb.name
  }

  const WORKSPACE_GUEST_PATH := "/workspace"
}
