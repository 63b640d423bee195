/** The toasts the renderer's tables show with antd's `message` API. */
module Notices {
  /** A notice shown to the user: `message.success`, `message.warning` or
      `message.error` with its text. */
  datatype Notice = Success(text: string) | Warning(text: string) | Error(text: string)
}
