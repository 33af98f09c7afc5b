/** The furniture record that the interface module sends to the service:
    `{"type": id, "width": w, "height": h}`. */
module Scene {

  datatype Furniture = Furniture(kind: int, width: real, height: real)
}
