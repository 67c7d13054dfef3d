/**
 * What a page or form hands to the browser besides its own state: toasts,
 * router navigation and form resets. They are recorded as effects, in order.
 */
module Ui {
  import opened Js

  /** A toast; `destructive` is the red error variant. */
  datatype Toast = Toast(destructive: bool, title: string, description: Option<string>)

  datatype Effect =
    | ShowToast(toast: Toast)
    | Push(path: string)       // router.push
    | Replace(path: string)    // router.replace
    | Refresh                  // router.refresh
    | ResetForm                // form.reset()
    | ClearFileInput           // event.target.value = ''
    | ReadFile(name: string)   // FileReader.readAsDataURL started on the chosen file

  datatype Language = En | Ar
}
